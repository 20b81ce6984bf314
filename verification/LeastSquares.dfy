/**
 Scalar factors (src/compute/scalar-gaussian.ts), the sums of squares they weigh, and the normal equations
 whose solution minimises them, over the reals.
 */
module LeastSquares {
  import opened Ordering
  import opened RealSums

  datatype Factor =
    | Absolute(id: string, stateId: string, meanM: real, varianceM2: real)
    | Relative(id: string, fromStateId: string, toStateId: string, deltaM: real, varianceM2: real)

  type Vector = seq<real>
  type Matrix = seq<seq<real>>

  /* ---- The declared model ---- */

  predicate Known(ids: seq<string>, f: Factor) {
    match f
    case Absolute(_, at, _, _) => at in ids
    case Relative(_, from, to, _, _) => from in ids && to in ids && from != to
  }

  function Target(f: Factor): real {
    if f.Absolute? then f.meanM else f.deltaM
  }

  /** A factor as declared: named, fresh, over known states, within its bounds. */
  ghost predicate FactorDeclared(ids: seq<string>, factors: seq<Factor>, k: int)
    requires 0 <= k < |factors|
  {
    && Identifier(factors[k].id) && (forall j | 0 <= j < k :: factors[j].id != factors[k].id)
    && 0.00000001 <= factors[k].varianceM2 <= 1000000.0
    && match factors[k]
       case Absolute(_, at, mean, _) => at in ids && -1000000.0 <= mean <= 1000000.0
       case Relative(_, from, to, delta, _) =>
         from in ids && to in ids && from != to && -1000000.0 <= delta <= 1000000.0
  }

  /** The declared model: at most sixteen named states, at most sixty-four factors over them. */
  ghost predicate Declared(ids: seq<string>, factors: seq<Factor>) {
    && 1 <= |ids| <= 16 && 1 <= |factors| <= 64
    && (forall id | id in ids :: Identifier(id)) && Distinct(ids)
    && forall k | 0 <= k < |factors| :: FactorDeclared(ids, factors, k)
  }

  method Validate(ids: seq<string>, factors: seq<Factor>) returns (ok: bool)
    ensures ok <==> Declared(ids, factors)
  {
    hide Identifier;
    if !(1 <= |ids| <= 16 && 1 <= |factors| <= 64) { return false; }
    var indexes: set<string> := {};
    for i := 0 to |ids|
      invariant forall k | 0 <= k < i :: Identifier(ids[k])
      invariant forall id :: id in indexes <==> id in ids[..i]
      invariant Distinct(ids[..i])
    {
      if !Identifier(ids[i]) || ids[i] in indexes {
        assert ids[i] in ids[..i] ==> !Distinct(ids);
        return false;
      }
      assert ids[..i + 1] == ids[..i] + [ids[i]];
      indexes := indexes + {ids[i]};
    }
    assert ids[..|ids|] == ids;
    var factorIds: set<string> := {};
    for k := 0 to |factors|
      invariant forall j | 0 <= j < k :: FactorDeclared(ids, factors, j)
      invariant forall id :: id in factorIds <==> exists j | 0 <= j < k :: factors[j].id == id
    {
      var f := factors[k];
      var known :=
        if f.Absolute? then f.stateId in indexes && -1000000.0 <= f.meanM <= 1000000.0
        else
          f.fromStateId in indexes && f.toStateId in indexes && f.fromStateId != f.toStateId
          && -1000000.0 <= f.deltaM <= 1000000.0;
      if !known || !Identifier(f.id) || f.id in factorIds || !(0.00000001 <= f.varianceM2 <= 1000000.0) {
        assert !FactorDeclared(ids, factors, k);
        return false;
      }
      factorIds := factorIds + {f.id};
    }
    return true;
  }

  /** What the algebra needs of the input. */
  ghost predicate Sound(ids: seq<string>, factors: seq<Factor>) {
    Distinct(ids) && forall f | f in factors :: Known(ids, f) && f.varianceM2 > 0.0
  }

  /** The position of a state, or -1. */
  function IndexOf(ids: seq<string>, id: string): (i: int)
    ensures -1 <= i < |ids| && (i >= 0 <==> id in ids) && (i >= 0 ==> ids[i] == id)
  {
    if ids == [] then -1
    else if ids[0] == id then 0
    else var rest := IndexOf(ids[1..], id); if rest < 0 then -1 else rest + 1
  }

  /* ---- Vectors, matrices and the forms the factors define ---- */

  function V(x: Vector, i: int): real { if 0 <= i < |x| then x[i] else 0.0 }

  function At(m: Matrix, i: int, j: int): real { if 0 <= i < |m| then V(m[i], j) else 0.0 }

  ghost predicate Square(m: Matrix, n: nat) {
    |m| == n && forall i | 0 <= i < n :: |m[i]| == n
  }

  ghost predicate Zero(x: Vector) { forall i | 0 <= i < |x| :: x[i] == 0.0 }

  function Weight(f: Factor): real { Over(1.0, f.varianceM2) }

  /** The coefficient of state `i` in what a factor measures. */
  function Coefficient(ids: seq<string>, f: Factor, i: int): real {
    if !(0 <= i < |ids|) then 0.0
    else match f
      case Absolute(_, at, _, _) => if ids[i] == at then 1.0 else 0.0
      case Relative(_, from, to, _, _) => if ids[i] == to then 1.0 else if ids[i] == from then -1.0 else 0.0
  }

  /** What a factor would measure, without noise, at a state vector. */
  function Apply(ids: seq<string>, f: Factor, x: Vector): real {
    match f
    case Absolute(_, at, _, _) => V(x, IndexOf(ids, at))
    case Relative(_, from, to, _, _) => V(x, IndexOf(ids, to)) - V(x, IndexOf(ids, from))
  }

  /** Each factor, at its strength, spread over the states it measures: the part that lands on state `i`. */
  ghost function Spread(ids: seq<string>, fs: seq<Factor>, strength: Factor -> real, i: int): real {
    if fs == [] then 0.0
    else Spread(ids, fs[..|fs| - 1], strength, i) + Times(strength(fs[|fs| - 1]), Coefficient(ids, fs[|fs| - 1], i))
  }

  /** Each factor, at its strength, times what it measures at `y`. */
  ghost function Collect(ids: seq<string>, fs: seq<Factor>, strength: Factor -> real, y: Vector): real {
    if fs == [] then 0.0
    else Collect(ids, fs[..|fs| - 1], strength, y) + Times(strength(fs[|fs| - 1]), Apply(ids, fs[|fs| - 1], y))
  }

  function RowStrength(ids: seq<string>, i: int): Factor -> real { f => Times(Weight(f), Coefficient(ids, f, i)) }
  function TargetStrength(): Factor -> real { f => Times(Weight(f), Target(f)) }
  function ValueStrength(ids: seq<string>, x: Vector): Factor -> real { f => Times(Weight(f), Apply(ids, f, x)) }

  /** The information matrix: every factor adds its weight times the outer square of its coefficients. */
  ghost function Information(ids: seq<string>, fs: seq<Factor>, i: int, j: int): real {
    Spread(ids, fs, RowStrength(ids, i), j)
  }

  ghost function RightHandSide(ids: seq<string>, fs: seq<Factor>, i: int): real {
    Spread(ids, fs, TargetStrength(), i)
  }

  /** The bilinear form of the information matrix, factor by factor. */
  ghost function Form(ids: seq<string>, fs: seq<Factor>, x: Vector, y: Vector): real {
    Collect(ids, fs, ValueStrength(ids, x), y)
  }

  /** The sum of squared residuals over variances: what a least-squares mean minimises. */
  ghost function WeightedSquares(ids: seq<string>, fs: seq<Factor>, x: Vector): real {
    if fs == [] then 0.0
    else
      var r := Apply(ids, fs[|fs| - 1], x) - Target(fs[|fs| - 1]);
      WeightedSquares(ids, fs[..|fs| - 1], x) + Times(Weight(fs[|fs| - 1]), Times(r, r))
  }

  lemma ApplyIsSum(ids: seq<string>, f: Factor, x: Vector, terms: int -> real)
    requires Distinct(ids) && Known(ids, f)
    requires forall i | 0 <= i < |ids| :: terms(i) == Times(Coefficient(ids, f, i), V(x, i))
    ensures Sum(|ids|, terms) == Apply(ids, f, x)
  {
    var n := |ids|;
    match f
    case Absolute(_, at, _, _) =>
      SumSingle(n, IndexOf(ids, at), terms);
    case Relative(_, from, to, _, _) =>
      var a, b := IndexOf(ids, to), IndexOf(ids, from);
      var plus := (i: int) => if i == a then V(x, a) else 0.0;
      var minus := (i: int) => if i == b then -V(x, b) else 0.0;
      SumSingle(n, a, plus);
      SumSingle(n, b, minus);
      SumAdd(n, plus, minus, terms);
  }

  /** Spreading and then weighing by `y` is collecting at `y`. */
  lemma {:induction false} SpreadCollects(ids: seq<string>, fs: seq<Factor>, strength: Factor -> real, y: Vector,
      terms: int -> real)
    requires Sound(ids, fs)
    requires forall i | 0 <= i < |ids| :: terms(i) == Times(Spread(ids, fs, strength, i), V(y, i))
    ensures Sum(|ids|, terms) == Collect(ids, fs, strength, y)
  {
    hide Apply, Coefficient, V, Times;
    if fs == [] {
      forall i | 0 <= i < |ids| ensures terms(i) == 0.0 { TimesLaws(V(y, i), 0.0, 0.0); TimesLaws(0.0, V(y, i), 0.0); }
      SumTail(|ids|, 0, terms);
    } else {
      var f, rest := fs[|fs| - 1], fs[..|fs| - 1];
      var k := strength(f);
      var before := (i: int) => Times(Spread(ids, rest, strength, i), V(y, i));
      var unit := (i: int) => Times(Coefficient(ids, f, i), V(y, i));
      var added := (i: int) => Times(k, unit(i));
      SpreadCollects(ids, rest, strength, y, before);
      ApplyIsSum(ids, f, y, unit);
      SumScale(|ids|, k, unit, added);
      forall i | 0 <= i < |ids| ensures terms(i) == before(i) + added(i) {
        Distribute(Spread(ids, rest, strength, i), k, Coefficient(ids, f, i), V(y, i));
      }
      SumAdd(|ids|, before, added, terms);
    }
  }

  lemma Distribute(a: real, k: real, c: real, v: real)
    ensures Times(a + Times(k, c), v) == Times(a, v) + Times(k, Times(c, v))
  {
  }

  /** A row of the information matrix applied to `x` is the values at `x` spread onto that row. */
  lemma {:induction false} RowCollectsToSpread(ids: seq<string>, fs: seq<Factor>, x: Vector, i: int)
    ensures Collect(ids, fs, RowStrength(ids, i), x) == Spread(ids, fs, ValueStrength(ids, x), i)
  {
    hide Apply, Coefficient, Weight, Times;
    if fs != [] {
      RowCollectsToSpread(ids, fs[..|fs| - 1], x, i);
      var f := fs[|fs| - 1];
      Commute(Weight(f), Coefficient(ids, f, i), Apply(ids, f, x));
    }
  }

  lemma Commute(w: real, c: real, a: real)
    ensures Times(Times(w, c), a) == Times(Times(w, a), c)
  {
  }

  lemma RowApplied(ids: seq<string>, fs: seq<Factor>, x: Vector, i: int, terms: int -> real)
    requires Sound(ids, fs)
    requires forall j | 0 <= j < |ids| :: terms(j) == Times(Information(ids, fs, i, j), V(x, j))
    ensures Sum(|ids|, terms) == Spread(ids, fs, ValueStrength(ids, x), i)
  {
    hide Times, V;
    SpreadCollects(ids, fs, RowStrength(ids, i), x, terms);
    RowCollectsToSpread(ids, fs, x, i);
  }

  /** The normal equations: information times mean is the right-hand side. */
  ghost predicate SolvesNormalEquations(ids: seq<string>, fs: seq<Factor>, m: Vector) {
    forall i | 0 <= i < |ids| :: Spread(ids, fs, ValueStrength(ids, m), i) == RightHandSide(ids, fs, i)
  }

  /** At a solution of the normal equations the residuals do not pull along any displacement. */
  lemma NoPull(ids: seq<string>, fs: seq<Factor>, m: Vector, y: Vector)
    requires Sound(ids, fs) && SolvesNormalEquations(ids, fs, m)
    ensures Form(ids, fs, m, y) == Collect(ids, fs, TargetStrength(), y)
  {
    hide Times, V;
    var left := (i: int) => Times(Spread(ids, fs, ValueStrength(ids, m), i), V(y, i));
    var right := (i: int) => Times(Spread(ids, fs, TargetStrength(), i), V(y, i));
    SpreadCollects(ids, fs, ValueStrength(ids, m), y, left);
    SpreadCollects(ids, fs, TargetStrength(), y, right);
    SumCongruent(|ids|, left, right);
  }

  /** Completing the square, factor by factor. */
  lemma {:induction false} CompleteTheSquare(ids: seq<string>, fs: seq<Factor>, m: Vector, x: Vector, y: Vector)
    requires forall f | f in fs :: Apply(ids, f, x) == Apply(ids, f, m) + Apply(ids, f, y)
    ensures WeightedSquares(ids, fs, x) == WeightedSquares(ids, fs, m)
      + 2.0 * (Form(ids, fs, m, y) - Collect(ids, fs, TargetStrength(), y)) + Form(ids, fs, y, y)
  {
    hide Apply, Weight, Target, Times;
    if fs != [] {
      var f := fs[|fs| - 1];
      CompleteTheSquare(ids, fs[..|fs| - 1], m, x, y);
      OneSquare(Weight(f), Apply(ids, f, m), Target(f), Apply(ids, f, y));
    }
  }

  lemma OneSquare(w: real, a: real, z: real, b: real)
    ensures Times(w, Times(a + b - z, a + b - z)) == Times(w, Times(a - z, a - z))
      + 2.0 * (Times(Times(w, a), b) - Times(Times(w, z), b)) + Times(Times(w, b), b)
  {
  }

  /** The form is never negative, and is zero exactly when every factor measures the displacement as zero. */
  lemma {:induction false} FormZero(ids: seq<string>, fs: seq<Factor>, y: Vector)
    requires Sound(ids, fs)
    ensures Form(ids, fs, y, y) >= 0.0
    ensures Form(ids, fs, y, y) == 0.0 <==> forall f | f in fs :: Apply(ids, f, y) == 0.0
  {
    hide Apply, Times;
    if fs != [] {
      var f, rest := fs[|fs| - 1], fs[..|fs| - 1];
      assert fs == rest + [f];
      FormZero(ids, rest, y);
      ScaledSquareSign(Weight(f), Apply(ids, f, y));
    }
  }

  lemma ScaledSquareSign(w: real, a: real)
    requires w > 0.0
    ensures Times(Times(w, a), a) >= 0.0 && (Times(Times(w, a), a) == 0.0 <==> a == 0.0)
  {
    hide Times;
    TimesLaws(w, a, a);
    TimesPositive(w, Times(a, a));
    SquareSign(a);
  }

  /** A solution of the normal equations of a positive-definite form is the unique minimiser. */
  lemma UniqueMinimiser(ids: seq<string>, fs: seq<Factor>, m: Vector, x: Vector)
    requires Sound(ids, fs) && SolvesNormalEquations(ids, fs, m) && PositiveDefinite(ids, fs)
    requires |m| == |x| == |ids| && x != m
    ensures WeightedSquares(ids, fs, x) > WeightedSquares(ids, fs, m)
  {
    var y := seq(|ids|, i requires 0 <= i < |ids| => x[i] - m[i]);
    NoPull(ids, fs, m, y);
    CompleteTheSquare(ids, fs, m, x, y);
    FormZero(ids, fs, y);
    assert exists i :: 0 <= i < |ids| && x[i] != m[i] && y[i] != 0.0;
  }

  /** No nonzero displacement goes unmeasured. */
  ghost predicate PositiveDefinite(ids: seq<string>, fs: seq<Factor>) {
    forall y: Vector | |y| == |ids| && Form(ids, fs, y, y) == 0.0 :: Zero(y)
  }

  lemma InformationSymmetric(ids: seq<string>, fs: seq<Factor>, i: int, j: int)
    ensures Information(ids, fs, i, j) == Information(ids, fs, j, i)
  {
    SpreadSymmetric(ids, fs, i, j);
  }

  lemma {:induction false} SpreadSymmetric(ids: seq<string>, fs: seq<Factor>, i: int, j: int)
    ensures Spread(ids, fs, RowStrength(ids, i), j) == Spread(ids, fs, RowStrength(ids, j), i)
  {
    hide Coefficient, Weight, Times;
    if fs != [] {
      var f := fs[|fs| - 1];
      SpreadSymmetric(ids, fs[..|fs| - 1], i, j);
      Commute(Weight(f), Coefficient(ids, f, i), Coefficient(ids, f, j));
    }
  }

  ghost function QuadraticTerm(n: nat, m: (int, int) -> real, x: Vector, i: int): real {
    Times(V(x, i), Sum(n, j => Times(m(i, j), V(x, j))))
  }

  /** The form the search decides is the quadratic form of the information matrix itself. */
  lemma FormIsQuadratic(ids: seq<string>, fs: seq<Factor>, x: Vector)
    requires Sound(ids, fs)
    ensures Form(ids, fs, x, x) == Sum(|ids|, i => QuadraticTerm(|ids|, (a, b) => Information(ids, fs, a, b), x, i))
  {
    hide Times, V, Information;
    var n, h := |ids|, (a: int, b: int) => Information(ids, fs, a, b);
    var terms := (i: int) => QuadraticTerm(n, h, x, i);
    forall i | 0 <= i < n ensures terms(i) == Times(Spread(ids, fs, ValueStrength(ids, x), i), V(x, i)) {
      var row := (j: int) => Times(h(i, j), V(x, j));
      RowApplied(ids, fs, x, i, row);
      TimesLaws(V(x, i), Sum(n, row), 0.0);
    }
    SpreadCollects(ids, fs, ValueStrength(ids, x), x, terms);
  }

  /* ---- Order of factors ---- */

  ghost function Total(fs: seq<Factor>, term: Factor -> real): real {
    if fs == [] then 0.0 else Total(fs[..|fs| - 1], term) + term(fs[|fs| - 1])
  }

  lemma {:induction false} TotalWithout(fs: seq<Factor>, term: Factor -> real, k: nat)
    requires k < |fs|
    ensures Total(fs, term) == Total(fs[..k] + fs[k + 1..], term) + term(fs[k])
  {
    var last := |fs| - 1;
    if k == last {
      assert fs[..k] + fs[k + 1..] == fs[..last];
    } else {
      TotalWithout(fs[..last], term, k);
      var shorter := fs[..k] + fs[k + 1..];
      assert fs[..last][..k] + fs[..last][k + 1..] == shorter[..|shorter| - 1];
    }
  }

  lemma Without(gs: seq<Factor>, k: nat)
    requires k < |gs|
    ensures multiset(gs[..k] + gs[k + 1..]) == multiset(gs) - multiset{gs[k]}
  {
    assert gs == gs[..k] + [gs[k]] + gs[k + 1..];
  }

  lemma {:induction false} TotalPermuted(fs: seq<Factor>, gs: seq<Factor>, term: Factor -> real)
    requires multiset(fs) == multiset(gs)
    ensures Total(fs, term) == Total(gs, term)
  {
    SameElements(fs, gs);
    if fs != [] {
      var f, rest := fs[|fs| - 1], fs[..|fs| - 1];
      assert fs == rest + [f];
      assert f in gs;
      var k :| 0 <= k < |gs| && gs[k] == f;
      TotalWithout(gs, term, k);
      Without(gs, k);
      assert multiset(rest) == multiset(fs) - multiset{f};
      TotalPermuted(rest, gs[..k] + gs[k + 1..], term);
    }
  }

  lemma {:induction false} SpreadIsTotal(ids: seq<string>, fs: seq<Factor>, strength: Factor -> real, i: int,
      term: Factor -> real)
    requires forall f :: term(f) == Times(strength(f), Coefficient(ids, f, i))
    ensures Spread(ids, fs, strength, i) == Total(fs, term)
  {
    if fs != [] { SpreadIsTotal(ids, fs[..|fs| - 1], strength, i, term); }
  }

  lemma {:induction false} SquaresAreTotal(ids: seq<string>, fs: seq<Factor>, x: Vector, term: Factor -> real)
    requires forall f :: term(f) == Times(Weight(f), Times(Apply(ids, f, x) - Target(f), Apply(ids, f, x) - Target(f)))
    ensures WeightedSquares(ids, fs, x) == Total(fs, term)
  {
    if fs != [] { SquaresAreTotal(ids, fs[..|fs| - 1], x, term); }
  }

  /** Neither the information matrix nor the sum of squares depends on the order of the factors. */
  lemma OrderDoesNotShow(ids: seq<string>, fs: seq<Factor>, gs: seq<Factor>, x: Vector, i: int, j: int)
    requires multiset(fs) == multiset(gs)
    ensures Information(ids, fs, i, j) == Information(ids, gs, i, j)
    ensures RightHandSide(ids, fs, i) == RightHandSide(ids, gs, i)
    ensures WeightedSquares(ids, fs, x) == WeightedSquares(ids, gs, x)
  {
    hide Times, Coefficient, Weight, Apply;
    var entry := (f: Factor) => Times(RowStrength(ids, i)(f), Coefficient(ids, f, j));
    SpreadIsTotal(ids, fs, RowStrength(ids, i), j, entry);
    SpreadIsTotal(ids, gs, RowStrength(ids, i), j, entry);
    TotalPermuted(fs, gs, entry);
    var right := (f: Factor) => Times(TargetStrength()(f), Coefficient(ids, f, i));
    SpreadIsTotal(ids, fs, TargetStrength(), i, right);
    SpreadIsTotal(ids, gs, TargetStrength(), i, right);
    TotalPermuted(fs, gs, right);
    var square := (f: Factor) => Times(Weight(f), Times(Apply(ids, f, x) - Target(f), Apply(ids, f, x) - Target(f)));
    SquaresAreTotal(ids, fs, x, square);
    SquaresAreTotal(ids, gs, x, square);
    TotalPermuted(fs, gs, square);
  }
}
