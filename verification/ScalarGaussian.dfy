/**
 The scalar linear-Gaussian solver (src/compute/scalar-gaussian.ts), in exact real arithmetic.

 Factors measure one state or a difference of two. The solver refuses an unanchored model, assembles
 the information matrix, scales it, factors it, inverts it and reports the mean with its residuals.
 Square root is a parameter that squares back; the refusal thresholds are the source's constants.
 */
module ScalarGaussian {
  import opened Basics
  import opened Ordering
  import opened RealSums
  import opened LeastSquares
  import opened Anchoring
  import opened Factorization
  import opened TriangularSolves
  import opened Assembly

  datatype State = State(id: string, meanM: real, varianceM2: real)
  datatype Residual = Residual(id: string, residualM: real, standardizedResidual: real)
  datatype Solution = Solution(states: seq<State>, covarianceM2: Matrix, factorResiduals: seq<Residual>,
                               weightedResidualSumSquares: real, degreesOfFreedom: int)
  datatype Refusal = InvalidInput | UnanchoredComponent | IllConditioned
  datatype Outcome = Solved(solution: Solution) | Refused(why: Refusal)

  const MAX_SCALED_CONDITION := 10000000000.0
  const MAX_SAFE := 9007199254740991.0
  const MAX_WEIGHTED_SUM := 100000000000000000000000000.0

  /* ---- The solver ---- */

  function Abs(v: real): (r: real)
    ensures r >= 0.0 && (r == v || r == -v)
  {
    if v < 0.0 then -v else v
  }

  function RowAbs(row: Vector): real {
    if row == [] then 0.0 else RowAbs(row[..|row| - 1]) + Abs(row[|row| - 1])
  }

  function NormInfinity(m: Matrix): real
    requires m != []
  {
    if |m| == 1 then RowAbs(m[0])
    else if RowAbs(m[0]) > NormInfinity(m[1..]) then RowAbs(m[0]) else NormInfinity(m[1..])
  }

  /** The sum of absolute values along a row. */
  ghost function RowMagnitude(m: Matrix, i: int, n: nat): real { Sum(n, k => Abs(At(m, i, k))) }

  lemma {:induction false} RowAbsIsMagnitude(m: Matrix, i: int, n: nat)
    requires 0 <= i < |m| && n <= |m[i]|
    ensures RowAbs(m[i][..n]) == RowMagnitude(m, i, n) >= 0.0
  {
    if n > 0 {
      RowAbsIsMagnitude(m, i, n - 1);
      assert m[i][..n][..n - 1] == m[i][..n - 1];
    }
  }

  /** The infinity norm is the largest row sum. */
  lemma {:induction false} NormIsLargestRow(m: Matrix)
    requires m != []
    ensures forall i | 0 <= i < |m| :: RowAbs(m[i]) <= NormInfinity(m)
    ensures exists i | 0 <= i < |m| :: RowAbs(m[i]) == NormInfinity(m)
  {
    if |m| > 1 {
      var rest := m[1..];
      NormIsLargestRow(rest);
      forall i | 0 <= i < |m| ensures RowAbs(m[i]) <= NormInfinity(m) {
        if i > 0 { assert m[i] == rest[i - 1]; }
      }
      var k :| 0 <= k < |rest| && RowAbs(rest[k]) == NormInfinity(rest);
      assert rest[k] == m[k + 1];
      assert RowAbs(m[0]) == NormInfinity(m) || RowAbs(m[k + 1]) == NormInfinity(m);
    }
  }

  /** No row of the matrix and row of its inverse multiply, in magnitude, beyond the limit. */
  ghost predicate ConditionWithin(scaled: Matrix, scaledInverse: Matrix, n: nat) {
    forall i, j | 0 <= i < n && 0 <= j < n ::
      Times(RowMagnitude(scaled, i, n), RowMagnitude(scaledInverse, j, n)) <= 10000000000.0
  }

  lemma TimesGrows(a: real, b: real, c: real, d: real)
    requires 0.0 <= a <= c && 0.0 <= b <= d
    ensures Times(a, b) <= Times(c, d)
  {
    var p, q := c - a, d - b;
    assert p * b >= 0.0;
    assert c * q >= 0.0;
    assert c * d == a * b + p * b + c * q;
  }

  lemma RowSum(m: Matrix, n: nat, i: int)
    requires Square(m, n) && 0 <= i < n
    ensures RowAbs(m[i]) == RowMagnitude(m, i, n) >= 0.0
  {
    RowAbsIsMagnitude(m, i, n);
    assert m[i][..n] == m[i];
  }

  lemma LargestRow(m: Matrix, n: nat) returns (i: int)
    requires Square(m, n) && n > 0
    ensures 0 <= i < n && RowMagnitude(m, i, n) == NormInfinity(m)
  {
    hide RowAbs, RowMagnitude, NormInfinity;
    NormIsLargestRow(m);
    i :| 0 <= i < n && RowAbs(m[i]) == NormInfinity(m);
    RowSum(m, n, i);
  }

  lemma RowWithinNorm(m: Matrix, n: nat, i: int)
    requires Square(m, n) && 0 <= i < n
    ensures 0.0 <= RowMagnitude(m, i, n) <= NormInfinity(m)
  {
    hide RowAbs, RowMagnitude, NormInfinity;
    NormIsLargestRow(m);
    RowSum(m, n, i);
  }

  /** The condition the solver computes is within its limit exactly when every pair of rows is. */
  lemma ConditionExactly(m: Matrix, x: Matrix, n: nat)
    requires Square(m, n) && Square(x, n) && n > 0
    ensures NormInfinity(m) * NormInfinity(x) <= MAX_SCALED_CONDITION <==> ConditionWithin(m, x, n)
  {
    hide Times, RowAbs, RowMagnitude, NormInfinity;
    var i := LargestRow(m, n);
    var j := LargestRow(x, n);
    NamedProduct(NormInfinity(m), NormInfinity(x));
    if Times(NormInfinity(m), NormInfinity(x)) <= MAX_SCALED_CONDITION {
      forall p, q | 0 <= p < n && 0 <= q < n
        ensures Times(RowMagnitude(m, p, n), RowMagnitude(x, q, n)) <= 10000000000.0 {
        RowWithinNorm(m, n, p);
        RowWithinNorm(x, n, q);
        TimesGrows(RowMagnitude(m, p, n), RowMagnitude(x, q, n), NormInfinity(m), NormInfinity(x));
      }
    }
  }

  lemma NamedProduct(a: real, b: real)
    ensures Times(a, b) == a * b
  {
  }

  predicate Safe(v: real) { Abs(v) <= MAX_SAFE }

  ghost function InformationMatrix(ids: seq<string>, fs: seq<Factor>): (h: Matrix)
    ensures Symmetric(h, |ids|)
    ensures forall i, j | 0 <= i < |ids| && 0 <= j < |ids| :: h[i][j] == Information(ids, fs, i, j)
  {
    var n := |ids|;
    var h := seq(n, i => seq(n, j => Information(ids, fs, i, j)));
    assert forall i, j :: At(h, i, j) == At(h, j, i) by {
      forall i, j ensures At(h, i, j) == At(h, j, i) {
        if 0 <= i < n && 0 <= j < n { InformationSymmetric(ids, fs, i, j); }
      }
    }
    h
  }

  function Means(s: Solution): (x: Vector)
    ensures |x| == |s.states| && forall i | 0 <= i < |x| :: x[i] == s.states[i].meanM
  {
    seq(|s.states|, i requires 0 <= i < |s.states| => s.states[i].meanM)
  }

  /** What a returned solution is. */
  ghost predicate Solves(ids: seq<string>, fs: seq<Factor>, root: real -> real, s: Solution) {
    && |s.states| == |ids|
    && (forall i | 0 <= i < |ids| :: s.states[i].id == ids[i] && s.states[i].varianceM2 == At(s.covarianceM2, i, i))
    // The covariance is the whole inverse of the information matrix.
    && Inverse(InformationMatrix(ids, fs), s.covarianceM2, |ids|)
    // The mean is the unique minimiser of the weighted squares, and the reported sum is that minimum.
    && (forall x: Vector | |x| == |ids| && x != Means(s) ::
      WeightedSquares(ids, fs, x) > WeightedSquares(ids, fs, Means(s)))
    && s.weightedResidualSumSquares == WeightedSquares(ids, fs, Means(s))
    && |s.factorResiduals| == |fs|
    && (forall k | 0 <= k < |fs| :: s.factorResiduals[k] == ResidualOf(ids, fs[k], root, Means(s)))
    && s.degreesOfFreedom == |fs| - |ids|
  }

  function ResidualOf(ids: seq<string>, f: Factor, root: real -> real, x: Vector): Residual {
    var r := Apply(ids, f, x) - Target(f);
    Residual(f.id, r, Over(r, root(f.varianceM2)))
  }

  /** The numerical refusals, as bounds on the exact solution. */
  ghost predicate WithinLimits(scaled: Matrix, scaledInverse: Matrix, s: Solution) {
    && ConditionWithin(scaled, scaledInverse, |scaled|)
    && (forall x | x in Means(s) :: -9007199254740991.0 <= x <= 9007199254740991.0)
    && (forall i, j :: -9007199254740991.0 <= At(s.covarianceM2, i, j) <= 9007199254740991.0)
    && (forall i | 0 <= i < |s.covarianceM2| :: At(s.covarianceM2, i, i) > 0.0)
    && (forall r | r in s.factorResiduals ::
          && -9007199254740991.0 <= r.residualM <= 9007199254740991.0
          && -9007199254740991.0 <= r.standardizedResidual <= 9007199254740991.0)
    && s.weightedResidualSumSquares <= 100000000000000000000000000.0
  }

  /** The information matrix scaled by the roots of its diagonal. */
  ghost function ScaledInformation(ids: seq<string>, fs: seq<Factor>, root: real -> real): Matrix
    requires Sound(ids, fs) && PositiveDefinite(ids, fs) && IsRoot(root)
  {
    forall i: nat | i < |ids| ensures Information(ids, fs, i, i) > 0.0 { DiagonalPositive(ids, fs, i); }
    var h := InformationMatrix(ids, fs);
    Scaled(h, Roots(h, |ids|, root), |ids|)
  }

  function Roots(h: Matrix, n: nat, root: real -> real): (d: Vector)
    requires Square(h, n) && IsRoot(root) && forall i | 0 <= i < n :: h[i][i] > 0.0
    ensures |d| == n && forall i | 0 <= i < n :: d[i] > 0.0 && d[i] == root(h[i][i])
  {
    seq(n, i requires 0 <= i < n => root(h[i][i]))
  }

  /** Accepted when the pivots exceed the threshold and the exact solution is within the limits. */
  ghost predicate WellConditioned(ids: seq<string>, fs: seq<Factor>, root: real -> real)
    requires Sound(ids, fs) && PositiveDefinite(ids, fs) && IsRoot(root)
  {
    var m := ScaledInformation(ids, fs, root);
    && PivotsExceed(m, |ids|)
    && forall x: Matrix, s: Solution | Inverse(m, x, |ids|) && Solves(ids, fs, root, s) :: WithinLimits(m, x, s)
  }

  lemma DeclaredSound(ids: seq<string>, fs: seq<Factor>)
    requires Declared(ids, fs)
    ensures Sound(ids, fs)
  {
    forall f | f in fs ensures Known(ids, f) && f.varianceM2 > 0.0 {
      var k :| 0 <= k < |fs| && fs[k] == f;
      assert FactorDeclared(ids, fs, k);
    }
  }

  lemma ScaledSymmetric(h: Matrix, scale: Vector, n: nat)
    requires Symmetric(h, n) && |scale| == n && forall i | 0 <= i < n :: scale[i] > 0.0
    ensures Symmetric(Scaled(h, scale, n), n)
  {
    var m := Scaled(h, scale, n);
    forall i, j ensures At(m, i, j) == At(m, j, i) {
      if 0 <= i < n && 0 <= j < n {
        assert At(h, i, j) == At(h, j, i);
        TimesLaws(scale[i], scale[j], 0.0);
      }
    }
  }

  /** Undoing the scaling of the mean solves the normal equations. */
  lemma MeanSolves(h: Matrix, g: Vector, d: Vector, y: Vector, mean: Vector, n: nat, i: nat)
    requires Square(h, n) && |g| == |d| == |y| == |mean| == n && i < n && forall k | 0 <= k < n :: d[k] > 0.0
    requires RowTimes(Scaled(h, d, n), y, i, n) == Over(g[i], d[i])
    requires forall k | 0 <= k < n :: mean[k] == Over(y[k], d[k])
    ensures RowTimes(h, mean, i, n) == g[i]
  {
    hide Times, Over;
    var m := Scaled(h, d, n);
    var terms, scaled := (k: int) => Times(At(h, i, k), V(mean, k)), (k: int) => Times(At(m, i, k), V(y, k));
    forall k | 0 <= k < n ensures terms(k) == Times(d[i], scaled(k)) {
      MeanTerm(h[i][k], d[i], d[k], y[k], m[i][k], mean[k]);
    }
    SumScale(n, d[i], scaled, terms);
    assert RowTimes(h, mean, i, n) == Sum(n, terms) && RowTimes(m, y, i, n) == Sum(n, scaled);
    OverLaws(g[i], d[i]);
  }

  lemma MeanTerm(h: real, a: real, b: real, y: real, m: real, z: real)
    requires a > 0.0 && b > 0.0 && m == Over(h, Times(a, b)) && z == Over(y, b)
    ensures Times(h, z) == Times(a, Times(m, y))
  {
    hide Times, Over;
    Fraction(h, a, b, m);
    OverLaws(y, b);
    // h z = (a m b) z = a m (b z) = a m y
    TimesLaws(Times(a, m), b, z);
    TimesLaws(a, m, y);
  }

  lemma Fraction(h: real, a: real, b: real, m: real)
    requires a > 0.0 && b > 0.0 && m == Over(h, Times(a, b))
    ensures h == Times(Times(a, m), b)
  {
    TimesPositive(a, b);
    OverLaws(h, Times(a, b));
    assert m * (a * b) == (a * m) * b;
  }

  /** Undoing the scaling of the inverse inverts the information matrix. */
  lemma CovarianceInverts(h: Matrix, d: Vector, x: Matrix, c: Matrix, n: nat, i: nat, j: nat)
    requires Square(h, n) && |d| == n && i < n && j < n && forall k | 0 <= k < n :: d[k] > 0.0
    requires Inverse(Scaled(h, d, n), x, n) && Square(c, n)
    requires forall k | 0 <= k < n :: c[k][j] == Over(x[k][j], Times(d[k], d[j]))
    ensures Product(h, c, i, j, n) == Kronecker(i, j)
  {
    hide Times, Over;
    var m := Scaled(h, d, n);
    var q := Over(d[i], d[j]);
    var terms, scaled := (k: int) => Times(At(h, i, k), At(c, k, j)), (k: int) => Times(At(m, i, k), At(x, k, j));
    forall k | 0 <= k < n ensures terms(k) == Times(q, scaled(k)) {
      CovarianceTerm(h[i][k], d[i], d[k], d[j], x[k][j], m[i][k], c[k][j]);
    }
    SumScale(n, q, scaled, terms);
    assert Product(h, c, i, j, n) == Sum(n, terms) && Product(m, x, i, j, n) == Sum(n, scaled) == Kronecker(i, j);
    TimesLaws(q, 0.0, 0.0);
    TimesLaws(1.0, d[i], 0.0);
    TimesLaws(d[i], 1.0, 0.0);
    OverUnique(1.0, d[i], d[i]);
  }

  lemma CovarianceTerm(h: real, a: real, b: real, c: real, x: real, m: real, z: real)
    requires a > 0.0 && b > 0.0 && c > 0.0 && m == Over(h, Times(a, b)) && z == Over(x, Times(b, c))
    ensures Times(h, z) == Times(Over(a, c), Times(m, x))
  {
    hide Times, Over;
    var q := Over(a, c);
    Fraction(h, a, b, m);
    Fraction(x, b, c, z);
    OverLaws(a, c);
    // h z = (a m b) z = (q c m b) z = q m (b z c) = q m x
    FiveFactors(q, c, m, b, z);
  }

  lemma FiveFactors(q: real, c: real, m: real, b: real, z: real)
    ensures Times(Times(Times(Times(q, c), m), b), z) == Times(q, Times(m, Times(Times(b, z), c)))
  {
  }

  /* From the computed pieces to the promise. */

  lemma AssembledSame(ids: seq<string>, fs: seq<Factor>, ordered: seq<Factor>, h: Matrix, g: Vector)
    requires multiset(fs) == multiset(ordered) && Assembled(ids, ordered, h, g)
    ensures h == InformationMatrix(ids, fs)
    ensures forall i | 0 <= i < |ids| :: g[i] == RightHandSide(ids, fs, i)
  {
    hide Information, RightHandSide;
    var e := InformationMatrix(ids, fs);
    forall i | 0 <= i < |ids| ensures h[i] == e[i] && g[i] == RightHandSide(ids, fs, i) {
      OrderDoesNotShow(ids, fs, ordered, [], i, i);
      forall j | 0 <= j < |ids| ensures h[i][j] == e[i][j] {
        OrderDoesNotShow(ids, fs, ordered, [], i, j);
        assert At(h, i, j) == Information(ids, ordered, i, j);
      }
    }
  }

  /** A vector the information matrix takes to the right-hand side is the unique minimiser. */
  lemma NormalMeansMinimal(ids: seq<string>, fs: seq<Factor>, h: Matrix, g: Vector, mean: Vector)
    requires Sound(ids, fs) && PositiveDefinite(ids, fs) && h == InformationMatrix(ids, fs) && |mean| == |g| == |ids|
    requires forall i | 0 <= i < |ids| :: g[i] == RightHandSide(ids, fs, i) && RowTimes(h, mean, i, |ids|) == g[i]
    ensures forall x: Vector | |x| == |ids| && x != mean :: WeightedSquares(ids, fs, x) > WeightedSquares(ids, fs, mean)
  {
    hide Times, Information, RightHandSide, WeightedSquares, PositiveDefinite;
    forall i | 0 <= i < |ids| ensures Spread(ids, fs, ValueStrength(ids, mean), i) == RightHandSide(ids, fs, i) {
      var row := (j: int) => Times(At(h, i, j), V(mean, j));
      forall j | 0 <= j < |ids| ensures row(j) == Times(Information(ids, fs, i, j), V(mean, j)) {
        assert h[i][j] == Information(ids, fs, i, j);
      }
      RowApplied(ids, fs, mean, i, row);
      assert RowTimes(h, mean, i, |ids|) == Sum(|ids|, row);
    }
    forall x: Vector | |x| == |ids| && x != mean ensures WeightedSquares(ids, fs, x) > WeightedSquares(ids, fs, mean) {
      UniqueMinimiser(ids, fs, mean, x);
    }
  }

  /** A model has at most one solution. */
  lemma SolutionUnique(ids: seq<string>, fs: seq<Factor>, root: real -> real, s: Solution, t: Solution)
    requires Solves(ids, fs, root, s) && Solves(ids, fs, root, t)
    ensures s == t
  {
    hide WeightedSquares, Information, Inverse;
    InverseUnique(InformationMatrix(ids, fs), s.covarianceM2, t.covarianceM2, |ids|);
    assert Means(s) == Means(t) by {
      if Means(s) != Means(t) { assert false; }
    }
    forall i | 0 <= i < |ids| ensures s.states[i] == t.states[i] {
      assert Means(s)[i] == Means(t)[i];
    }
    assert s.states == t.states && s.factorResiduals == t.factorResiduals;
  }

  lemma ConditionDecides(ids: seq<string>, fs: seq<Factor>, root: real -> real, x: Matrix, s: Solution)
    requires Sound(ids, fs) && PositiveDefinite(ids, fs) && IsRoot(root)
    requires PivotsExceed(ScaledInformation(ids, fs, root), |ids|)
    requires Symmetric(ScaledInformation(ids, fs, root), |ids|)
    requires Inverse(ScaledInformation(ids, fs, root), x, |ids|) && Solves(ids, fs, root, s)
    ensures WellConditioned(ids, fs, root) <==> WithinLimits(ScaledInformation(ids, fs, root), x, s)
  {
    hide Solves, Inverse, WithinLimits, PivotsExceed, Symmetric, PositiveDefinite;
    var m := ScaledInformation(ids, fs, root);
    forall z: Matrix, t: Solution | Inverse(m, z, |ids|) && Solves(ids, fs, root, t) ensures z == x && t == s {
      InverseUnique(m, x, z, |ids|);
      SolutionUnique(ids, fs, root, s, t);
    }
  }

  /** The residuals, in the caller's order, and their weighted sum in identifier order with a compensated total. */
  method Residuals(ids: seq<string>, fs: seq<Factor>, ordered: seq<Factor>, root: real -> real, mean: Vector)
    returns (residuals: seq<Residual>, total: real)
    requires Sound(ids, fs) && multiset(fs) == multiset(ordered) && IsRoot(root)
    ensures |residuals| == |fs| && forall k | 0 <= k < |fs| :: residuals[k] == ResidualOf(ids, fs[k], root, mean)
    ensures total == WeightedSquares(ids, fs, mean)
  {
    hide Apply, Times, IsRoot;
    SameElements(fs, ordered);
    residuals := seq(|fs|, k requires 0 <= k < |fs| => ResidualOf(ids, fs[k], root, mean));
    total := 0.0;
    var compensation := 0.0;
    for k := 0 to |ordered|
      invariant total == WeightedSquares(ids, ordered[..k], mean) && compensation == 0.0
    {
      var f := ordered[k];
      assert ordered[..k + 1][..k] == ordered[..k];
      var residual := ResidualOf(ids, f, root, mean).standardizedResidual;
      StandardizedSquare(ids, f, root, mean);
      var value := Times(residual, residual) - compensation;
      var next := total + value;
      compensation := (next - total) - value;
      total := next;
    }
    assert ordered[..|ordered|] == ordered;
    OrderDoesNotShow(ids, fs, ordered, mean, 0, 0);
  }

  lemma StandardizedSquare(ids: seq<string>, f: Factor, root: real -> real, mean: Vector)
    requires IsRoot(root) && f.varianceM2 > 0.0
    ensures
      var r := Apply(ids, f, mean) - Target(f);
      var z := ResidualOf(ids, f, root, mean).standardizedResidual;
      Times(z, z) == Times(Weight(f), Times(r, r))
  {
    hide Apply;
    var r, d := Apply(ids, f, mean) - Target(f), root(f.varianceM2);
    SquareOfQuotient(r, d, f.varianceM2);
  }

  lemma SquareOfQuotient(r: real, d: real, v: real)
    requires d > 0.0 && v > 0.0 && Times(d, d) == v
    ensures Times(Over(r, d), Over(r, d)) == Times(Over(1.0, v), Times(r, r))
  {
    hide Times, Over;
    var q, w := Over(r, d), Over(1.0, v);
    OverLaws(r, d);
    OverLaws(1.0, v);
    SixFactors(q, d, w);
    TimesLaws(Times(q, q), 1.0, 0.0);
  }

  lemma SixFactors(q: real, d: real, w: real)
    ensures Times(w, Times(Times(q, d), Times(q, d))) == Times(Times(q, q), Times(w, Times(d, d)))
  {
  }

  function Covariance(x: Matrix, d: Vector, n: nat): (c: Matrix)
    requires Square(x, n) && |d| == n && forall i | 0 <= i < n :: d[i] > 0.0
    ensures Square(c, n)
    ensures forall i, j | 0 <= i < n && 0 <= j < n :: c[i][j] == CovarianceEntry(x[i][j], x[j][i], d[i], d[j])
  {
    seq(n, i requires 0 <= i < n => CovarianceRow(x, d, n, i))
  }

  function CovarianceRow(x: Matrix, d: Vector, n: nat, i: nat): (r: Vector)
    requires Square(x, n) && |d| == n && i < n && forall k | 0 <= k < n :: d[k] > 0.0
    ensures |r| == n && forall j | 0 <= j < n :: r[j] == CovarianceEntry(x[i][j], x[j][i], d[i], d[j])
  {
    seq(n, j requires 0 <= j < n => CovarianceEntry(x[i][j], x[j][i], d[i], d[j]))
  }

  function CovarianceEntry(u: real, v: real, d: real, e: real): real {
    Over(u + v, Times(2.0, Times(d, e)))
  }

  lemma HalfSum(x: real, d: real, e: real)
    requires d > 0.0 && e > 0.0
    ensures CovarianceEntry(x, x, d, e) == Over(x, Times(d, e))
  {
    var p := Times(d, e);
    TimesPositive(d, e);
    OverLaws(x, p);
    OverUnique(Over(x, p), x + x, Times(2.0, p));
  }

  /** The averaged, rescaled inverse is the whole inverse of the information matrix. */
  lemma CovarianceIsInverse(h: Matrix, d: Vector, x: Matrix, n: nat)
    requires Symmetric(h, n) && |d| == n && forall k | 0 <= k < n :: d[k] > 0.0
    requires Inverse(Scaled(h, d, n), x, n)
    ensures Inverse(h, Covariance(x, d, n), n)
  {
    hide Product, CovarianceEntry;
    ScaledSymmetric(h, d, n);
    InverseUnique(Scaled(h, d, n), x, x, n);
    var c := Covariance(x, d, n);
    forall i, j | 0 <= i < n && 0 <= j < n ensures Product(h, c, i, j, n) == Kronecker(i, j) {
      forall k | 0 <= k < n ensures c[k][j] == Over(x[k][j], Times(d[k], d[j])) {
        assert At(x, k, j) == At(x, j, k) && At(x, k, j) == x[k][j] && At(x, j, k) == x[j][k];
        HalfSum(x[k][j], d[k], d[j]);
      }
      CovarianceInverts(h, d, x, c, n, i, j);
    }
  }

  predicate Accepted(scaled: Matrix, scaledInverse: Matrix, s: Solution) {
    && scaled != [] && scaledInverse != []
    && NormInfinity(scaled) * NormInfinity(scaledInverse) <= MAX_SCALED_CONDITION
    && (forall x | x in Means(s) :: Safe(x))
    && (forall i | 0 <= i < |s.covarianceM2| ::
         (forall v | v in s.covarianceM2[i] :: Safe(v)) && At(s.covarianceM2, i, i) > 0.0)
    && (forall r | r in s.factorResiduals :: Safe(r.residualM) && Safe(r.standardizedResidual))
    && s.weightedResidualSumSquares <= MAX_WEIGHTED_SUM
  }

  lemma AcceptedIsWithin(m: Matrix, x: Matrix, s: Solution, n: nat)
    requires Square(s.covarianceM2, n) && Square(m, n) && Square(x, n) && n > 0
    ensures Accepted(m, x, s) <==> WithinLimits(m, x, s)
  {
    hide Means, NormInfinity, ConditionWithin;
    ConditionExactly(m, x, n);
    var c := s.covarianceM2;
    if forall i | 0 <= i < |c| :: forall v | v in c[i] :: Safe(v) {
      forall i, j ensures Safe(At(c, i, j)) { if 0 <= i < n && 0 <= j < n { assert c[i][j] in c[i]; } }
    }
    if forall i, j :: Safe(At(c, i, j)) {
      forall i, v | 0 <= i < |c| && v in c[i] ensures Safe(v) {
        var j :| 0 <= j < n && c[i][j] == v;
        assert Safe(At(c, i, j));
      }
    }
  }

  /** The mean, from the factored scaled system. */
  method SolveMean(ghost h: Matrix, ghost m: Matrix, l: Matrix, g: Vector, d: Vector, n: nat) returns (mean: Vector)
    requires Square(h, n) && |g| == |d| == n && forall k | 0 <= k < n :: d[k] > 0.0
    requires m == Scaled(h, d, n) && Symmetric(m, n) && Factors(m, l, n)
    ensures |mean| == n && forall i | 0 <= i < n :: RowTimes(h, mean, i, n) == g[i]
  {
    hide Times, Factors, RowTimes, Symmetric;
    FactorsTriangular(m, l, n);
    var rhs := seq(n, i requires 0 <= i < n => Over(g[i], d[i]));
    var y := SolveCholesky(l, rhs, n);
    ghost var half :| Halfway(l, rhs, half, y, n);
    mean := seq(n, i requires 0 <= i < n => Over(y[i], d[i]));
    forall i | 0 <= i < n ensures RowTimes(h, mean, i, n) == g[i] {
      FactorSolves(m, l, rhs, half, y, n, i);
      MeanSolves(h, g, d, y, mean, n, i);
    }
  }

  method SolveAnchored(ids: seq<string>, factors: seq<Factor>, root: real -> real) returns (accepted: bool, s: Solution)
    requires ids != [] && Sound(ids, factors) && PositiveDefinite(ids, factors) && IsRoot(root)
    ensures accepted <==> WellConditioned(ids, factors, root)
    ensures accepted ==> Solves(ids, factors, root, s)
  {
    hide PositiveDefinite, WithinLimits, PivotsExceed, Factors, Inverse, Assembled, SortedBy, Information, Accepted,
      Apply, WeightedSquares, RightHandSide, RowTimes, Solves, Means, ResidualOf;
    var n := |ids|;
    s := Solution([], [], [], 0.0, 0);
    var ordered := SortedCopy((f: Factor) => f.id, factors);
    var h, g := Assemble(ids, ordered);
    AssembledSame(ids, factors, ordered, h, g);
    ghost var exact := ScaledInformation(ids, factors, root);
    forall i: nat | i < n ensures h[i][i] > 0.0 { DiagonalPositive(ids, factors, i); }
    AssembledShape(ids, ordered, h, g);
    var d := Roots(h, n, root);
    var m := Scaled(h, d, n);
    ScaledSymmetric(h, d, n);
    assert m == exact;
    var factored := Cholesky(m, n, root);
    if factored.None? { return false, s; }
    var l := factored.value;
    var x := Invert(m, l, n);
    var mean := SolveMean(h, m, l, g, d, n);
    NormalMeansMinimal(ids, factors, h, g, mean);
    CovarianceIsInverse(h, d, x, n);
    InverseShape(m, x, n);
    var c := Covariance(x, d, n);
    var residuals, total := Residuals(ids, factors, ordered, root, mean);
    s := Solution(seq(n, i requires 0 <= i < n => State(ids[i], mean[i], c[i][i])), c, residuals, total, |factors| - n);
    ReportSolves(ids, factors, root, mean, s);
    ConditionDecides(ids, factors, root, x, s);
    AcceptedIsWithin(m, x, s, n);
    accepted := Accepted(m, x, s);
  }

  /** A report with the mean, its residuals and the whole inverse is a solution. */
  lemma ReportSolves(ids: seq<string>, fs: seq<Factor>, root: real -> real, mean: Vector, s: Solution)
    requires |mean| == |ids| == |s.states| && Inverse(InformationMatrix(ids, fs), s.covarianceM2, |ids|)
    requires forall i | 0 <= i < |ids| :: s.states[i] == State(ids[i], mean[i], At(s.covarianceM2, i, i))
    requires forall x: Vector | |x| == |ids| && x != mean ::
      WeightedSquares(ids, fs, x) > WeightedSquares(ids, fs, mean)
    requires s.weightedResidualSumSquares == WeightedSquares(ids, fs, mean) && s.degreesOfFreedom == |fs| - |ids|
    requires |s.factorResiduals| == |fs|
    requires forall k | 0 <= k < |fs| :: s.factorResiduals[k] == ResidualOf(ids, fs[k], root, mean)
    ensures Solves(ids, fs, root, s)
  {
    hide Inverse, WeightedSquares, ResidualOf;
    assert Means(s) == mean;
  }

  lemma AssembledShape(ids: seq<string>, fs: seq<Factor>, h: Matrix, g: Vector)
    requires Assembled(ids, fs, h, g)
    ensures Square(h, |ids|) && |g| == |ids|
  {
  }

  lemma InverseShape(m: Matrix, x: Matrix, n: nat)
    requires Inverse(m, x, n)
    ensures Square(x, n)
  {
  }

  /**
   The solver. It refuses an invalid model, refuses a model some displacement of which nothing measures,
   refuses when the pivots, the condition or the magnitudes of the exact solution pass the thresholds,
   and otherwise returns the exact solution.
   */
  method SolveScalarGaussian(ids: seq<string>, factors: seq<Factor>, root: real -> real) returns (r: Outcome)
    requires IsRoot(root)
    ensures r == Refused(InvalidInput) <==> !Declared(ids, factors)
    ensures r == Refused(UnanchoredComponent) <==> Declared(ids, factors) && !PositiveDefinite(ids, factors)
    ensures Declared(ids, factors) ==> Sound(ids, factors)
    ensures r.Solved? <==>
      Declared(ids, factors) && PositiveDefinite(ids, factors) && WellConditioned(ids, factors, root)
    ensures r.Solved? ==> Solves(ids, factors, root, r.solution)
  {
    hide PositiveDefinite, Declared, Solves, WithinLimits, WellConditioned, PivotsExceed, Factors, Symmetric, Inverse,
      Assembled, SortedBy;
    var valid := Validate(ids, factors);
    if !valid { return Refused(InvalidInput); }
    DeclaredSound(ids, factors);
    DeclaredStates(ids, factors);
    var anchored := AnchoringSearch(ids, factors);
    if !anchored { return Refused(UnanchoredComponent); }
    var accepted, solution := SolveAnchored(ids, factors, root);
    return if accepted then Solved(solution) else Refused(IllConditioned);
  }

  lemma DeclaredStates(ids: seq<string>, fs: seq<Factor>)
    requires Declared(ids, fs)
    ensures ids != []
  {
  }

  /** A reported residual is what the mean gives less what was measured; standardised, it is in deviations. */
  lemma ResidualIsDeviation(ids: seq<string>, f: Factor, root: real -> real, x: Vector, i: nat, j: nat)
    requires IsRoot(root) && f.varianceM2 > 0.0 && Distinct(ids) && |x| == |ids| && i < |ids| && j < |ids|
    requires f.Absolute? ==> ids[i] == f.stateId
    requires f.Relative? ==> ids[i] == f.toStateId && ids[j] == f.fromStateId
    ensures var r := ResidualOf(ids, f, root, x);
      && r.id == f.id && r.residualM == (if f.Absolute? then x[i] - f.meanM else x[i] - x[j] - f.deltaM)
      && r.standardizedResidual * root(f.varianceM2) == r.residualM
  {
    OverLaws(ResidualOf(ids, f, root, x).residualM, root(f.varianceM2));
  }
}
