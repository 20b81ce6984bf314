/**
 The in-place assembly of the information matrix (src/compute/scalar-gaussian.ts), and its scaling by the roots
 of its diagonal.
 */
module Assembly {
  import opened Ordering
  import opened RealSums
  import opened LeastSquares
  import opened Factorization
  import opened TriangularSolves

  /* ---- Assembly ---- */

  /** What one factor adds to one entry of the information matrix. */
  function EntryChange(ids: seq<string>, f: Factor, i: int, j: int): real {
    match f
    case Absolute(_, at, _, _) =>
      if i == j == IndexOf(ids, at) then Weight(f) else 0.0
    case Relative(_, from, to, _, _) =>
      var u, v := IndexOf(ids, from), IndexOf(ids, to);
      if i == j && (i == u || i == v) then Weight(f)
      else if (i == u && j == v) || (i == v && j == u) then -Weight(f)
      else 0.0
  }

  function RightChange(ids: seq<string>, f: Factor, i: int): real {
    match f
    case Absolute(_, at, mean, _) => if i == IndexOf(ids, at) then Times(Weight(f), mean) else 0.0
    case Relative(_, from, to, delta, _) =>
      if i == IndexOf(ids, to) then Times(Weight(f), delta)
      else if i == IndexOf(ids, from) then -(Times(Weight(f), delta))
      else 0.0
  }

  lemma CoefficientByIndex(ids: seq<string>, f: Factor, i: int)
    requires Distinct(ids) && Known(ids, f) && 0 <= i < |ids|
    ensures f.Absolute? ==> Coefficient(ids, f, i) == Kronecker(i, IndexOf(ids, f.stateId))
    ensures f.Relative? ==>
      Coefficient(ids, f, i) == Kronecker(i, IndexOf(ids, f.toStateId)) - Kronecker(i, IndexOf(ids, f.fromStateId))
  {
  }

  lemma EntryTerm(ids: seq<string>, f: Factor, i: int, j: int)
    requires Distinct(ids) && Known(ids, f) && 0 <= i < |ids| && 0 <= j < |ids|
    ensures Times(Times(Weight(f), Coefficient(ids, f, i)), Coefficient(ids, f, j)) == EntryChange(ids, f, i, j)
  {
    hide Times, Coefficient, Weight;
    CoefficientByIndex(ids, f, i);
    CoefficientByIndex(ids, f, j);
    Signs(Weight(f), Coefficient(ids, f, j));
    Signs(-Weight(f), Coefficient(ids, f, j));
  }

  lemma Signs(w: real, c: real)
    ensures Times(w, 1.0) == w && Times(w, -1.0) == -w && Times(w, 0.0) == 0.0 && Times(0.0, c) == 0.0
  {
  }

  lemma RightTerm(ids: seq<string>, f: Factor, i: int)
    requires Distinct(ids) && Known(ids, f) && 0 <= i < |ids|
    ensures Times(Times(Weight(f), Target(f)), Coefficient(ids, f, i)) == RightChange(ids, f, i)
  {
    hide Times, Coefficient, Weight;
    CoefficientByIndex(ids, f, i);
    Signs(Times(Weight(f), Target(f)), 0.0);
  }

  lemma OneMoreAssembled(ids: seq<string>, fs: seq<Factor>, f: Factor, i: int, j: int)
    requires Distinct(ids) && Known(ids, f) && 0 <= i < |ids| && 0 <= j < |ids|
    ensures Information(ids, fs + [f], i, j) == Information(ids, fs, i, j) + EntryChange(ids, f, i, j)
    ensures RightHandSide(ids, fs + [f], i) == RightHandSide(ids, fs, i) + RightChange(ids, f, i)
  {
    hide Times, Coefficient, Weight, EntryChange, RightChange;
    assert (fs + [f])[..|fs|] == fs;
    EntryTerm(ids, f, i, j);
    RightTerm(ids, f, i);
  }

  ghost predicate Assembled(ids: seq<string>, fs: seq<Factor>, information: Matrix, rhs: Vector) {
    && Square(information, |ids|) && |rhs| == |ids|
    && (forall i, j | 0 <= i < |ids| && 0 <= j < |ids| :: At(information, i, j) == Information(ids, fs, i, j))
    && forall i | 0 <= i < |ids| :: rhs[i] == RightHandSide(ids, fs, i)
  }

  method Assemble(ids: seq<string>, fs: seq<Factor>) returns (h: Matrix, g: Vector)
    requires Sound(ids, fs)
    ensures Assembled(ids, fs, h, g)
  {
    hide Times, Coefficient, Weight, Information, RightHandSide, EntryChange, RightChange;
    var n := |ids|;
    var information := new real[n, n]((i, j) => 0.0);
    var rhs := new real[n](i => 0.0);
    forall i, j ensures Information(ids, [], i, j) == 0.0 { NothingAssembled(ids, i, j); }
    forall i ensures RightHandSide(ids, [], i) == 0.0 { NothingAssembled(ids, i, i); }
    for k := 0 to |fs|
      invariant forall i, j | 0 <= i < n && 0 <= j < n :: information[i, j] == Information(ids, fs[..k], i, j)
      invariant forall i | 0 <= i < n :: rhs[i] == RightHandSide(ids, fs[..k], i)
    {
      var f := fs[k];
      assert fs[..k + 1] == fs[..k] + [f];
      ghost var earlier := Rows(information);
      AddToAssembly(ids, f, information, rhs);
      forall i, j | 0 <= i < n && 0 <= j < n ensures information[i, j] == Information(ids, fs[..k + 1], i, j) {
        assert earlier[i][j] == Information(ids, fs[..k], i, j);
        OneMoreAssembled(ids, fs[..k], f, i, j);
      }
      forall i | 0 <= i < n ensures rhs[i] == RightHandSide(ids, fs[..k + 1], i) {
        OneMoreAssembled(ids, fs[..k], f, i, i);
      }
    }
    assert fs[..|fs|] == fs;
    return Rows(information), rhs[..];
  }

  lemma NothingAssembled(ids: seq<string>, i: int, j: int)
    ensures Information(ids, [], i, j) == 0.0 && RightHandSide(ids, [], i) == 0.0
  {
  }

  /** The in-place additions one factor makes. */
  method AddToAssembly(ids: seq<string>, f: Factor, information: array2<real>, rhs: array<real>)
    requires Distinct(ids) && Known(ids, f)
    requires information.Length0 == information.Length1 == rhs.Length == |ids|
    modifies information, rhs
    ensures forall i, j | 0 <= i < |ids| && 0 <= j < |ids| ::
      information[i, j] == old(information[i, j]) + EntryChange(ids, f, i, j)
    ensures forall i | 0 <= i < |ids| :: rhs[i] == old(rhs[i]) + RightChange(ids, f, i)
  {
    hide Weight, Times, IndexOf;
    var weight := Weight(f);
    if f.Absolute? {
      var at := IndexOf(ids, f.stateId);
      information[at, at] := information[at, at] + weight;
      rhs[at] := rhs[at] + Times(weight, f.meanM);
    } else {
      var from, to := IndexOf(ids, f.fromStateId), IndexOf(ids, f.toStateId);
      information[from, from] := information[from, from] + weight;
      information[to, to] := information[to, to] + weight;
      information[from, to] := information[from, to] - weight;
      information[to, from] := information[to, from] - weight;
      rhs[from] := rhs[from] - Times(weight, f.deltaM);
      rhs[to] := rhs[to] + Times(weight, f.deltaM);
    }
  }

  /* ---- Scaling ---- */

  lemma DiagonalPositive(ids: seq<string>, fs: seq<Factor>, i: nat)
    requires Sound(ids, fs) && PositiveDefinite(ids, fs) && i < |ids|
    ensures Information(ids, fs, i, i) > 0.0
  {
    hide Times;
    var n := |ids|;
    var e := seq(n, k => Kronecker(k, i));
    var row := (j: int) => Times(Information(ids, fs, i, j), V(e, j));
    forall j | 0 <= j < n && j != i ensures row(j) == 0.0 { TimesZero(Information(ids, fs, i, j)); }
    SumSingle(n, i, row);
    RowApplied(ids, fs, e, i, row);
    TimesLaws(Information(ids, fs, i, i), 0.0, 0.0);
    var terms := (k: int) => Times(Spread(ids, fs, ValueStrength(ids, e), k), V(e, k));
    forall k | 0 <= k < n && k != i ensures terms(k) == 0.0 { TimesZero(Spread(ids, fs, ValueStrength(ids, e), k)); }
    SumSingle(n, i, terms);
    SpreadCollects(ids, fs, ValueStrength(ids, e), e, terms);
    TimesLaws(Spread(ids, fs, ValueStrength(ids, e), i), 0.0, 0.0);
    FormZero(ids, fs, e);
    assert e[i] == 1.0;
  }

  /** The information matrix with unit diagonal: each entry over the roots of its two diagonals. */
  function Scaled(h: Matrix, scale: Vector, n: nat): (m: Matrix)
    requires Square(h, n) && |scale| == n && forall i | 0 <= i < n :: scale[i] > 0.0
    ensures Square(m, n)
    ensures forall i, j | 0 <= i < n && 0 <= j < n :: m[i][j] == Over(h[i][j], Times(scale[i], scale[j]))
  {
    seq(n, i requires 0 <= i < n => ScaledRow(h[i], scale, scale[i], n))
  }

  function ScaledRow(row: Vector, scale: Vector, own: real, n: nat): (r: Vector)
    requires |row| == |scale| == n && own > 0.0 && forall i | 0 <= i < n :: scale[i] > 0.0
    ensures |r| == n && forall j | 0 <= j < n :: r[j] == Over(row[j], Times(own, scale[j]))
  {
    seq(n, j requires 0 <= j < n => Over(row[j], Times(own, scale[j])))
  }
}
