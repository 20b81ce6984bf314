/**
 Cholesky's factorisation and its pivot threshold (src/compute/scalar-gaussian.ts). Square root is a parameter
 that squares back.
 */
module Factorization {
  import opened Basics
  import opened RealSums
  import opened LeastSquares

  const MIN_PIVOT := 0.000000000001

  /** Row `i` of a matrix times a vector. */
  ghost function RowTimes(m: Matrix, x: Vector, i: int, n: nat): real { Sum(n, k => Times(At(m, i, k), V(x, k))) }

  /** Column `i` of a matrix times a vector. */
  ghost function ColumnTimes(m: Matrix, x: Vector, i: int, n: nat): real { Sum(n, k => Times(At(m, k, i), V(x, k))) }

  /** Changing entry `at`, alone, to the quotient that balances the rest of a sum. */
  lemma BalanceEntry(n: nat, at: nat, coefficient: int -> real, x: Vector, x': Vector, rest: int -> real, total: real)
    requires at < n && coefficient(at) != 0.0 && |x| == |x'| == n
    requires forall k | 0 <= k < n && k != at :: rest(k) == Times(coefficient(k), V(x', k))
    requires rest(at) == 0.0
    requires x'[at] == Over(total - Sum(n, rest), coefficient(at))
    ensures Sum(n, k => Times(coefficient(k), V(x', k))) == total
  {
    hide Times;
    var terms := (k: int) => Times(coefficient(k), V(x', k));
    var single := (k: int) => if k == at then Times(coefficient(at), V(x', at)) else 0.0;
    SumSingle(n, at, single);
    SumAdd(n, rest, single, terms);
    OverLaws(total - Sum(n, rest), coefficient(at));
  }

  lemma TimesZero(a: real)
    ensures Times(0.0, a) == 0.0 && Times(a, 0.0) == 0.0
  {
  }

  /* ---- Cholesky ---- */

  ghost predicate IsRoot(root: real -> real) {
    forall x :: x > 0.0 ==> root(x) > 0.0 && root(x) * root(x) == x
  }

  ghost predicate Symmetric(m: Matrix, n: nat) {
    Square(m, n) && forall i, j :: At(m, i, j) == At(m, j, i)
  }

  ghost function RowProduct(l: Matrix, i: int, j: int, upto: nat): real {
    Sum(upto, k => Times(At(l, i, k), At(l, j, k)))
  }

  /** Lower triangular with a positive diagonal, and its rows multiply out to the matrix. */
  ghost predicate Factors(m: Matrix, l: Matrix, n: nat) {
    && Square(l, n)
    && (forall i, j :: i < j ==> At(l, i, j) == 0.0)
    && (forall i | 0 <= i < n :: At(l, i, i) > 0.0 && Times(At(l, i, i), At(l, i, i)) > MIN_PIVOT)
    && forall i, j | 0 <= j <= i < n :: RowProduct(l, i, j, n) == At(m, i, j)
  }

  function Rows(a: array2<real>): (m: Matrix)
    reads a
    ensures |m| == a.Length0 && forall i | 0 <= i < a.Length0 :: |m[i]| == a.Length1
    ensures forall i, j | 0 <= i < a.Length0 && 0 <= j < a.Length1 :: m[i][j] == a[i, j]
  {
    seq(a.Length0, i requires 0 <= i < a.Length0 reads a =>
      seq(a.Length1, j requires 0 <= j < a.Length1 reads a => a[i, j]))
  }

  lemma RowProductSame(l: Matrix, l': Matrix, i: int, j: int, upto: nat)
    requires forall k | 0 <= k < upto :: At(l, i, k) == At(l', i, k) && At(l, j, k) == At(l', j, k)
    ensures RowProduct(l, i, j, upto) == RowProduct(l', i, j, upto)
  {
    SumCongruent(upto, k => Times(At(l, i, k), At(l, j, k)), k => Times(At(l', i, k), At(l', j, k)));
  }

  lemma RowProductStep(l: Matrix, i: int, j: int, upto: nat)
    ensures RowProduct(l, i, j, upto + 1) == RowProduct(l, i, j, upto) + Times(At(l, i, upto), At(l, j, upto))
    ensures RowProduct(l, i, j, 0) == 0.0
  {
    var f := (k: int) => Times(At(l, i, k), At(l, j, k));
    assert RowProduct(l, i, j, upto) == Sum(upto, f);
    assert RowProduct(l, i, j, upto + 1) == Sum(upto + 1, f);
  }

  /** The entries before (row, column) are done: those on the diagonal are positive and each row product is right. */
  ghost predicate DoneBefore(m: Matrix, l: Matrix, n: nat, row: int, column: int) {
    && Square(l, n)
    && (forall i, j :: i < j || i > row || (i == row && j >= column) ==> At(l, i, j) == 0.0)
    && (forall i | 0 <= i < row :: At(l, i, i) > 0.0 && Times(At(l, i, i), At(l, i, i)) > MIN_PIVOT)
    && (forall i, j | 0 <= j <= i < row :: RowProduct(l, i, j, j + 1) == At(m, i, j))
    && (forall j | 0 <= j < column :: RowProduct(l, row, j, j + 1) == At(m, row, j))
  }

  ghost predicate OneEntryMore(l: Matrix, l': Matrix, n: nat, row: int, column: int) {
    Square(l', n) && forall i, j :: i != row || j != column ==> At(l', i, j) == At(l, i, j)
  }

  /** Writing the entry that makes the row product right extends what is done. */
  lemma EntryDone(m: Matrix, l: Matrix, l': Matrix, n: nat, row: int, column: int)
    requires DoneBefore(m, l, n, row, column) && 0 <= column <= row < n
    requires OneEntryMore(l, l', n, row, column)
    requires Times(At(l', row, column), At(l', column, column))
      == At(m, row, column) - RowProduct(l, row, column, column)
    ensures DoneBefore(m, l', n, row, column + 1)
  {
    hide Times;
    forall i, j | 0 <= j <= i < row ensures RowProduct(l', i, j, j + 1) == At(m, i, j) {
      RowProductSame(l, l', i, j, j + 1);
    }
    forall j | 0 <= j < column ensures RowProduct(l', row, j, j + 1) == At(m, row, j) {
      RowProductSame(l, l', row, j, j + 1);
    }
    RowProductSame(l, l', row, column, column);
    RowProductStep(l', row, column, column);
  }

  lemma AllDone(m: Matrix, l: Matrix, n: nat)
    requires DoneBefore(m, l, n, n, 0)
    ensures Factors(m, l, n)
  {
    forall i, j | 0 <= j <= i < n ensures RowProduct(l, i, j, n) == At(m, i, j) {
      var f := (k: int) => Times(At(l, i, k), At(l, j, k));
      forall k | j + 1 <= k < n ensures f(k) == 0.0 { TimesLaws(At(l, i, k), 0.0, 0.0); }
      SumTail(n, j + 1, f);
    }
  }

  lemma NothingDone(m: Matrix, l: Matrix, n: nat)
    requires Square(l, n) && forall i, j :: At(l, i, j) == 0.0
    ensures DoneBefore(m, l, n, 0, 0)
  {
  }

  lemma RowDone(m: Matrix, l: Matrix, n: nat, row: nat)
    requires DoneBefore(m, l, n, row, row + 1)
    requires At(l, row, row) > 0.0 && Times(At(l, row, row), At(l, row, row)) > MIN_PIVOT
    ensures DoneBefore(m, l, n, row + 1, 0)
  {
    hide RowProduct, Times;
  }

  lemma DonePositive(m: Matrix, l: Matrix, n: nat, row: int, column: int)
    requires DoneBefore(m, l, n, row, column)
    ensures forall i | 0 <= i < row :: At(l, i, i) > 0.0
    ensures Square(l, n)
  {
  }

  /* What a pivot is: the least the quadratic form takes when one coordinate is one and later ones are zero. */

  ghost predicate Leading(x: Vector, n: nat, row: nat) {
    row < n == |x| && x[row] == 1.0 && forall i | row < i < n :: x[i] == 0.0
  }

  ghost function Quadratic(m: Matrix, n: nat, x: Vector): real { Sum(n, i => Times(V(x, i), RowTimes(m, x, i, n))) }

  ghost predicate PivotsExceed(m: Matrix, n: nat) {
    forall row: nat, x: Vector | Leading(x, n, row) :: Quadratic(m, n, x) > 0.000000000001
  }

  /** The leading block is what the factor's first columns multiply out to, plus a remainder in its last corner. */
  ghost predicate LeadingBlock(m: Matrix, l: Matrix, row: nat, v: real) {
    forall i, j | 0 <= i <= row && 0 <= j <= row ::
      At(m, i, j) == RowProduct(l, i, j, row) + (if i == j == row then v else 0.0)
  }

  /** Summing the rows of a partial product against `x`, column by column of the factor. */
  lemma PartialRow(l: Matrix, x: Vector, i: int, row: nat, n: nat)
    ensures Sum(n, j => Times(RowProduct(l, i, j, row), V(x, j)))
      == Sum(row, k => Times(At(l, i, k), ColumnTimes(l, x, k, n)))
  {
    hide Times;
    var h := (j: int, k: int) => Times(At(l, i, k), Times(At(l, j, k), V(x, j)));
    var rows := (j: int) => Times(RowProduct(l, i, j, row), V(x, j));
    var columns := (k: int) => Times(At(l, i, k), ColumnTimes(l, x, k, n));
    forall j | 0 <= j < n ensures rows(j) == Sum(row, k => h(j, k)) {
      var products := (k: int) => Times(At(l, i, k), At(l, j, k));
      assert Sum(row, products) == RowProduct(l, i, j, row);
      var scaled := (k: int) => h(j, k);
      forall k | 0 <= k < row ensures scaled(k) == Times(V(x, j), products(k)) {
        TimesLaws(At(l, i, k), At(l, j, k), V(x, j));
        TimesLaws(V(x, j), products(k), 0.0);
      }
      SumScale(row, V(x, j), products, scaled);
      TimesLaws(V(x, j), RowProduct(l, i, j, row), 0.0);
      SumCongruent(row, scaled, k => h(j, k));
    }
    forall k | 0 <= k < row ensures columns(k) == Sum(n, j => h(j, k)) {
      var inner := (j: int) => Times(At(l, j, k), V(x, j));
      assert Sum(n, inner) == ColumnTimes(l, x, k, n);
      SumScale(n, At(l, i, k), inner, j => h(j, k));
    }
    SumSwap(n, row, h, rows, columns);
  }

  /** A leading vector sees the block's row as the partial product's, plus the remainder in the corner. */
  lemma LeadingRow(m: Matrix, l: Matrix, n: nat, row: nat, v: real, x: Vector, i: nat)
    requires LeadingBlock(m, l, row, v) && Leading(x, n, row) && i <= row
    ensures RowTimes(m, x, i, n) == Sum(row, k => Times(At(l, i, k), ColumnTimes(l, x, k, n)))
      + (if i == row then v else 0.0)
  {
    hide Times, RowProduct, ColumnTimes;
    var whole := (j: int) => Times(At(m, i, j), V(x, j));
    var part := (j: int) => Times(RowProduct(l, i, j, row), V(x, j));
    var corner := (j: int) => if j == row then (if i == row then v else 0.0) else 0.0;
    forall j | 0 <= j < n ensures whole(j) == part(j) + corner(j) {
      if j > row {
        TimesZero(At(m, i, j));
        TimesZero(RowProduct(l, i, j, row));
      } else if j == row {
        TimesLaws(At(m, i, j), 0.0, 0.0);
        TimesLaws(RowProduct(l, i, j, row), 0.0, 0.0);
      }
    }
    SumAdd(n, part, corner, whole);
    SumSingle(n, row, corner);
    PartialRow(l, x, i, row, n);
    SumCongruent(n, part, j => Times(RowProduct(l, i, j, row), V(x, j)));
  }

  /** The form of a leading vector: squares of the factor's columns against it, plus the remainder. */
  lemma LeadingForm(m: Matrix, l: Matrix, n: nat, row: nat, v: real, x: Vector, squares: int -> real)
    requires LeadingBlock(m, l, row, v) && Leading(x, n, row)
    requires forall k | 0 <= k < row :: squares(k) == Times(ColumnTimes(l, x, k, n), ColumnTimes(l, x, k, n))
    ensures Quadratic(m, n, x) == Sum(row, squares) + v
  {
    hide Times, ColumnTimes, RowTimes, LeadingBlock;
    var whole := (i: int) => Times(V(x, i), RowTimes(m, x, i, n));
    var inner := (i: int) => Sum(row, k => Times(At(l, i, k), ColumnTimes(l, x, k, n)));
    var part := (i: int) => Times(V(x, i), inner(i));
    var corner := (i: int) => if i == row then v else 0.0;
    forall i | 0 <= i < n ensures whole(i) == part(i) + corner(i) {
      if i > row {
        TimesZero(RowTimes(m, x, i, n));
        TimesZero(inner(i));
      } else {
        LeadingRow(m, l, n, row, v, x, i);
        assert RowTimes(m, x, i, n) == inner(i) + corner(i);
        TimesLaws(V(x, i), inner(i), v);
        TimesLaws(v, 1.0, 0.0);
      }
    }
    SumAdd(n, part, corner, whole);
    SumSingle(n, row, corner);
    ColumnsSquared(l, n, row, x, part, squares);
  }

  lemma ColumnsSquared(l: Matrix, n: nat, row: nat, x: Vector, part: int -> real, squares: int -> real)
    requires forall i | 0 <= i < n ::
      part(i) == Times(V(x, i), Sum(row, k => Times(At(l, i, k), ColumnTimes(l, x, k, n))))
    requires forall k | 0 <= k < row :: squares(k) == Times(ColumnTimes(l, x, k, n), ColumnTimes(l, x, k, n))
    ensures Sum(n, part) == Sum(row, squares)
  {
    hide Times;
    var h := (i: int, k: int) => Times(V(x, i), Times(At(l, i, k), ColumnTimes(l, x, k, n)));
    forall i | 0 <= i < n ensures part(i) == Sum(row, k => h(i, k)) {
      SumScale(row, V(x, i), k => Times(At(l, i, k), ColumnTimes(l, x, k, n)), k => h(i, k));
    }
    forall k | 0 <= k < row ensures squares(k) == Sum(n, i => h(i, k)) {
      var c := ColumnTimes(l, x, k, n);
      var inner := (i: int) => Times(At(l, i, k), V(x, i));
      assert Sum(n, inner) == c;
      forall i | 0 <= i < n ensures h(i, k) == Times(c, inner(i)) {
        TimesLaws(V(x, i), At(l, i, k), c);
        TimesLaws(c, inner(i), 0.0);
        TimesLaws(At(l, i, k), V(x, i), 0.0);
      }
      SumScale(n, c, inner, i => h(i, k));
    }
    SumSwap(n, row, h, part, squares);
  }

  /** Before a diagonal entry is written, the leading block is the done part plus what remains. */
  lemma BlockBefore(m: Matrix, l: Matrix, n: nat, row: nat, v: real)
    requires Symmetric(m, n) && DoneBefore(m, l, n, row, row) && row < n
    requires v == At(m, row, row) - RowProduct(l, row, row, row)
    ensures LeadingBlock(m, l, row, v)
  {
    hide Times;
    forall i, j | 0 <= i <= row && 0 <= j <= row
      ensures At(m, i, j) == RowProduct(l, i, j, row) + (if i == j == row then v else 0.0)
    {
      if i != row || j != row {
        RowProductCommutes(l, i, j, row);
        if j <= i { ProductTail(l, i, j, j + 1, row); } else { ProductTail(l, j, i, i + 1, row); }
      }
    }
  }

  lemma ProductTail(l: Matrix, i: int, j: int, m: nat, n: nat)
    requires m <= n && forall k | m <= k < n :: At(l, j, k) == 0.0
    ensures RowProduct(l, i, j, n) == RowProduct(l, i, j, m)
  {
    hide Times;
    var f := (k: int) => Times(At(l, i, k), At(l, j, k));
    forall k | m <= k < n ensures f(k) == 0.0 { TimesZero(At(l, i, k)); }
    SumTail(n, m, f);
  }

  /** Choosing earlier coordinates, last first, so that the factor's columns vanish against the vector. */
  lemma {:induction false} AnnihilatingVector(l: Matrix, n: nat, row: nat, from: nat) returns (x: Vector)
    requires Square(l, n) && row < n && from <= row
    requires forall i, j :: i < j ==> At(l, i, j) == 0.0
    requires forall i | 0 <= i < row :: At(l, i, i) > 0.0
    ensures Leading(x, n, row) && forall k | from <= k < row :: ColumnTimes(l, x, k, n) == 0.0
    decreases row - from
  {
    hide Times;
    if from == row {
      x := seq(n, i => if i == row then 1.0 else 0.0);
    } else {
      var z := AnnihilatingVector(l, n, row, from + 1);
      var coefficient := (k: int) => At(l, k, from);
      var rest := (k: int) => if k == from then 0.0 else Times(coefficient(k), V(z, k));
      x := z[from := Over(0.0 - Sum(n, rest), coefficient(from))];
      BalanceEntry(n, from, coefficient, z, x, rest, 0.0);
      SumCongruent(n, k => Times(coefficient(k), V(x, k)), k => Times(At(l, k, from), V(x, k)));
      forall k | from < k < row ensures ColumnTimes(l, x, k, n) == 0.0 {
        TimesZero(V(z, from));
        TimesZero(V(x, from));
        var before, after := (i: int) => Times(At(l, i, k), V(z, i)), (i: int) => Times(At(l, i, k), V(x, i));
        SumCongruent(n, before, after);
        assert ColumnTimes(l, z, k, n) == Sum(n, before) && ColumnTimes(l, x, k, n) == Sum(n, after);
      }
    }
  }

  /** A pivot at or below the threshold is a leading vector whose form is at or below it. */
  lemma SmallPivot(m: Matrix, l: Matrix, n: nat, row: nat, v: real)
    requires Symmetric(m, n) && DoneBefore(m, l, n, row, row) && row < n
    requires v == At(m, row, row) - RowProduct(l, row, row, row) && v <= MIN_PIVOT
    ensures !PivotsExceed(m, n)
  {
    hide Times, RowProduct;
    BlockBefore(m, l, n, row, v);
    var x := AnnihilatingVector(l, n, row, 0);
    var squares := (k: int) => Times(ColumnTimes(l, x, k, n), ColumnTimes(l, x, k, n));
    LeadingForm(m, l, n, row, v, x, squares);
    TimesZero(0.0);
    SumTail(row, 0, squares);
    assert Quadratic(m, n, x) <= MIN_PIVOT;
  }

  /** When the factorisation completes, every leading form exceeds the threshold. */
  lemma FactoredPivotsExceed(m: Matrix, l: Matrix, n: nat)
    requires Symmetric(m, n) && Factors(m, l, n)
    ensures PivotsExceed(m, n)
  {
    hide Times, RowProduct;
    forall row: nat, x: Vector | Leading(x, n, row) ensures Quadratic(m, n, x) > MIN_PIVOT {
      var v := Times(At(l, row, row), At(l, row, row));
      FactoredBlock(m, l, n, row, v);
      var squares := (k: int) => Times(ColumnTimes(l, x, k, n), ColumnTimes(l, x, k, n));
      LeadingForm(m, l, n, row, v, x, squares);
      forall k | 0 <= k < row ensures squares(k) >= 0.0 { SquareSign(ColumnTimes(l, x, k, n)); }
      SumNonnegative(row, squares);
    }
  }

  lemma FactoredBlock(m: Matrix, l: Matrix, n: nat, row: nat, v: real)
    requires Symmetric(m, n) && Factors(m, l, n) && row < n
    requires v == Times(At(l, row, row), At(l, row, row))
    ensures LeadingBlock(m, l, row, v)
  {
    hide Times;
    forall i, j | 0 <= i <= row && 0 <= j <= row
      ensures At(m, i, j) == RowProduct(l, i, j, row) + (if i == j == row then v else 0.0)
    {
      RowProductCommutes(l, i, j, row);
      if i == j == row {
        ProductTail(l, row, row, row + 1, n);
        RowProductStep(l, row, row, row);
      } else if j <= i {
        ProductTail(l, i, j, row, n);
      } else {
        ProductTail(l, j, i, row, n);
      }
    }
  }

  /** What is left of an entry after the columns before it. */
  method Remainder(m: Matrix, lower: array2<real>, n: nat, row: nat, column: nat) returns (value: real)
    requires Square(m, n) && lower.Length0 == lower.Length1 == n && column <= row < n
    ensures value == At(m, row, column) - RowProduct(Rows(lower), row, column, column)
  {
    hide Times, RowProduct;
    value := m[row][column];
    RowProductStep(Rows(lower), row, column, 0);
    for k := 0 to column
      invariant value == m[row][column] - RowProduct(Rows(lower), row, column, k)
    {
      RowProductStep(Rows(lower), row, column, k);
      value := value - Times(lower[row, k], lower[column, k]);
    }
  }

  /** One entry: a root on the diagonal, a quotient below it; a pivot at or below the threshold is refused. */
  method FillEntry(m: Matrix, lower: array2<real>, n: nat, root: real -> real, row: nat, column: nat) returns (ok: bool)
    requires Symmetric(m, n) && IsRoot(root) && lower.Length0 == lower.Length1 == n && column <= row < n
    requires DoneBefore(m, Rows(lower), n, row, column)
    modifies lower
    ensures ok ==> DoneBefore(m, Rows(lower), n, row, column + 1)
    ensures ok && row == column ==>
      At(Rows(lower), row, row) > 0.0
      && Times(At(Rows(lower), row, row), At(Rows(lower), row, row)) > MIN_PIVOT
    ensures !ok ==> !PivotsExceed(m, n)
  {
    hide Times, RowProduct, DoneBefore, PivotsExceed;
    ghost var l := Rows(lower);
    DonePositive(m, l, n, row, column);
    var value := Remainder(m, lower, n, row, column);
    if row == column {
      if value <= MIN_PIVOT {
        SmallPivot(m, l, n, row, value);
        return false;
      }
      RootSquares(root, value);
      lower[row, column] := root(value);
    } else {
      assert lower[column, column] == At(l, column, column);
      OverLaws(value, lower[column, column]);
      lower[row, column] := Over(value, lower[column, column]);
    }
    EntryDone(m, l, Rows(lower), n, row, column);
    return true;
  }

  /** Row by row, in place: a factor when every pivot exceeds the threshold, and otherwise a refusal. */
  method Cholesky(m: Matrix, n: nat, root: real -> real) returns (r: Option<Matrix>)
    requires Symmetric(m, n) && IsRoot(root)
    ensures r.Some? ==> Factors(m, r.value, n)
    ensures r.Some? <==> PivotsExceed(m, n)
  {
    hide DoneBefore, Factors, Symmetric, PivotsExceed, Times;
    var lower := new real[n, n]((i, j) => 0.0);
    NothingDone(m, Rows(lower), n);
    for row := 0 to n
      invariant DoneBefore(m, Rows(lower), n, row, 0)
    {
      for column := 0 to row + 1
        invariant DoneBefore(m, Rows(lower), n, row, column)
        invariant column == row + 1 ==>
          At(Rows(lower), row, row) > 0.0 && Times(At(Rows(lower), row, row), At(Rows(lower), row, row)) > MIN_PIVOT
      {
        var ok := FillEntry(m, lower, n, root, row, column);
        if !ok { return None; }
      }
      RowDone(m, Rows(lower), n, row);
    }
    AllDone(m, Rows(lower), n);
    FactoredPivotsExceed(m, Rows(lower), n);
    return Some(Rows(lower));
  }

  lemma RootSquares(root: real -> real, v: real)
    requires IsRoot(root) && v > 0.0
    ensures root(v) > 0.0 && Times(root(v), root(v)) == v
  {
  }

  lemma RowProductCommutes(l: Matrix, i: int, j: int, n: nat)
    ensures RowProduct(l, i, j, n) == RowProduct(l, j, i, n)
  {
    hide Times;
    forall k | 0 <= k < n ensures Times(At(l, i, k), At(l, j, k)) == Times(At(l, j, k), At(l, i, k)) {
      TimesLaws(At(l, i, k), At(l, j, k), 0.0);
    }
    SumCongruent(n, k => Times(At(l, i, k), At(l, j, k)), k => Times(At(l, j, k), At(l, i, k)));
  }
}
