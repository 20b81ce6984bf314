/**
 The evaluation of a set of measurements as it is computed (src/compute/clearance-voi.ts).
 */
module ClearanceEvaluation {
  import opened Basics
  import opened RealSums
  import opened Ordering
  import opened Clearance
  import opened ClearanceGroups

  /* ---- One evaluation, as it is computed ---- */

  /** How much of a group of joint outcomes comes from each state. */
  function Weights(m: Model, columns: seq<nat>): (w: seq<real>)
    ensures |w| == |m.prior|
  {
    seq(|m.prior|, i => ColumnSum(Joint(m, i), columns))
  }

  function Probability(m: Model, columns: seq<nat>): real { Total(Weights(m, columns)) }

  /** The weights of the states that fit, or of the others. */
  function Chosen(w: seq<real>, fits: seq<bool>, want: bool): seq<real>
    requires |w| == |fits|
  {
    if w == [] then []
    else
      var n := |w| - 1;
      Chosen(w[..n], fits[..n], want) + (if fits[n] == want then [w[n]] else [])
  }

  lemma {:induction false} TotalIsSum(values: seq<real>, f: int -> real)
    requires forall i | 0 <= i < |values| :: values[i] == f(i)
    ensures Total(values) == Sum(|values|, f)
  {
    if values != [] { TotalIsSum(values[..|values| - 1], f); }
  }

  lemma TotalLast(values: seq<real>, x: real)
    ensures Total(values + [x]) == Total(values) + x
  {
    assert (values + [x])[..|values|] == values;
  }

  lemma {:induction false} ChosenIsSum(w: seq<real>, fits: seq<bool>, want: bool, f: int -> real)
    requires |w| == |fits| && forall i | 0 <= i < |w| :: f(i) == if fits[i] == want then w[i] else 0.0
    ensures Total(Chosen(w, fits, want)) == Sum(|w|, f)
  {
    if w != [] {
      var n := |w| - 1;
      ChosenIsSum(w[..n], fits[..n], want, f);
      TotalLast(Chosen(w[..n], fits[..n], want), w[n]);
      assert Chosen(w[..n], fits[..n], want) + [] == Chosen(w[..n], fits[..n], want);
    }
  }

  /** Summing a branch's weights state by state gives its masses. */
  lemma {:induction false} MassOfWeights(m: Model, fits: bool, columns: seq<nat>)
    requires Declared(m)
    ensures Total(Chosen(Weights(m, columns), m.fits, fits)) == Mass(m, fits, columns)
  {
    var f := (i: int) => if 0 <= i < |m.fits| && m.fits[i] == fits then ColumnSum(Joint(m, i), columns) else 0.0;
    ChosenIsSum(Weights(m, columns), m.fits, fits, f);
    MassByStates(m, fits, columns, f);
  }

  lemma {:induction false} MassByStates(m: Model, fits: bool, columns: seq<nat>, f: int -> real)
    requires |m.prior| == |m.fits|
    requires forall i | 0 <= i < |m.prior| :: f(i) == if m.fits[i] == fits then ColumnSum(Joint(m, i), columns) else 0.0
    ensures Sum(|m.prior|, f) == Mass(m, fits, columns)
  {
    hide Joint;
    if columns == [] {
      SumTail(|m.prior|, 0, f);
    } else {
      var n := |columns| - 1;
      var j := columns[n];
      var g := (i: int) => if 0 <= i < |m.fits| && m.fits[i] == fits then ColumnSum(Joint(m, i), columns[..n]) else 0.0;
      var h := (i: int) => if 0 <= i < |m.fits| && m.fits[i] == fits then Joint(m, i)(j) else 0.0;
      MassByStates(m, fits, columns[..n], g);
      SumAdd(|m.prior|, g, h, f);
      assert MassAt(m, fits)(j) == Sum(|m.prior|, h);
    }
  }

  /** A branch's probability is the mass on fitting states and on the others. */
  lemma ProbabilityIsMass(m: Model, columns: seq<nat>)
    requires Declared(m)
    ensures Probability(m, columns) == Mass(m, true, columns) + Mass(m, false, columns)
    ensures Probability(m, columns) >= 0.0
  {
    var w := Weights(m, columns);
    var all := (i: int) => if 0 <= i < |w| then w[i] else 0.0;
    var good := (i: int) => if 0 <= i < |m.fits| && m.fits[i] then ColumnSum(Joint(m, i), columns) else 0.0;
    var bad := (i: int) => if 0 <= i < |m.fits| && !m.fits[i] then ColumnSum(Joint(m, i), columns) else 0.0;
    TotalIsSum(w, all);
    SumAdd(|m.prior|, good, bad, all);
    MassByStates(m, true, columns, good);
    MassByStates(m, false, columns, bad);
    MassNonnegative(m, true, columns);
    MassNonnegative(m, false, columns);
  }

  /** What a measured branch believes. */
  datatype Belief = Belief(posterior: seq<real>, fitProbability: real, accept: real, reject: real, decision: Decision)

  function Divided(w: seq<real>, mass: real): (p: seq<real>)
    ensures |p| == |w|
  {
    seq(|w|, i requires 0 <= i < |w| => Over(w[i], mass))
  }

  lemma {:induction false} DividedTotal(w: seq<real>, mass: real)
    requires mass != 0.0
    ensures Times(mass, Total(Divided(w, mass))) == Total(w)
  {
    hide Times, Over;
    TimesLaws(mass, 0.0, 0.0);
    if w != [] {
      var n := |w| - 1;
      assert Divided(w, mass)[..n] == Divided(w[..n], mass);
      DividedTotal(w[..n], mass);
      OverLaws(w[n], mass);
      TimesLaws(mass, Total(Divided(w[..n], mass)), Over(w[n], mass));
    }
  }

  lemma {:induction false} ChosenDivided(w: seq<real>, fits: seq<bool>, want: bool, mass: real)
    requires |w| == |fits|
    ensures Chosen(Divided(w, mass), fits, want) == Divided(Chosen(w, fits, want), mass)
  {
    hide Over;
    if w != [] {
      var n := |w| - 1;
      assert Divided(w, mass)[..n] == Divided(w[..n], mass);
      ChosenDivided(w[..n], fits[..n], want, mass);
      var rest := Chosen(w[..n], fits[..n], want);
      assert Divided(rest + [w[n]], mass) == Divided(rest, mass) + [Over(w[n], mass)];
      assert rest + [] == rest && Divided(rest, mass) + [] == Divided(rest, mass);
    }
  }

  /** Risks read from a branch's normalized belief lead to the decision that the branch's own masses lead to. */
  lemma BeliefDecides(m: Model, columns: seq<nat>, good: real, bad: real)
    requires Declared(m) && Probability(m, columns) > 0.0
    requires Times(Probability(m, columns), good) == Mass(m, true, columns)
    requires Times(Probability(m, columns), bad) == Mass(m, false, columns)
    ensures good + bad == 1.0 && good >= 0.0 && bad >= 0.0
    ensures ChooseDecision(Times(m.unsafeAccept, bad), Times(m.unnecessaryReject, good))
      == ChooseDecision(AcceptRisk(m, columns), RejectRisk(m, columns))
  {
    hide Times, Mass, Probability, Declared, ChooseDecision;
    var p := Probability(m, columns);
    ProbabilityIsMass(m, columns);
    TimesLaws(p, good, bad);
    TimesLaws(p, good + bad, 1.0);
    TimesPositive(p, good + bad - 1.0);
    MassNonnegative(m, true, columns);
    MassNonnegative(m, false, columns);
    TimesPositive(p, good);
    TimesPositive(p, bad);
    assert m.unsafeAccept > 0.0 && m.unnecessaryReject > 0.0 by { LossesPositive(m); }
    TimesPositive(m.unsafeAccept, bad);
    TimesPositive(m.unnecessaryReject, good);
    TimesLaws(m.unsafeAccept, p, bad);
    TimesLaws(p, m.unsafeAccept, bad);
    TimesLaws(m.unnecessaryReject, p, good);
    TimesLaws(p, m.unnecessaryReject, good);
    ScaleFree(Times(m.unsafeAccept, bad), Times(m.unnecessaryReject, good), p);
  }

  lemma LossesPositive(m: Model)
    requires Declared(m)
    ensures m.unsafeAccept > 0.0 && m.unnecessaryReject > 0.0
  {
  }

  /** The belief over a distribution of the states: risks and the decision they lead to. */
  method BeliefOf(m: Model, probabilities: seq<real>) returns (b: Belief)
    requires |probabilities| == |m.fits|
    ensures b.posterior == probabilities
    ensures var good, bad := Total(Chosen(probabilities, m.fits, true)), Total(Chosen(probabilities, m.fits, false));
      good + bad == 1.0 ==>
        && b.fitProbability == good
        && b.accept == Times(m.unsafeAccept, bad) && b.reject == Times(m.unnecessaryReject, good)
        && b.decision == ChooseDecision(b.accept, b.reject)
    ensures Whole(m, probabilities) && m.unsafeAccept > 0.0 && m.unnecessaryReject > 0.0 ==> IsBelief(m, b)
  {
    hide Times, ChooseDecision, Share;
    ShareIsChosen(m, probabilities, true);
    ShareIsChosen(m, probabilities, false);
    var fitMass := CompensatedSum(Chosen(probabilities, m.fits, true));
    var unsafeMass := CompensatedSum(Chosen(probabilities, m.fits, false));
    var fitProbability := Over(fitMass, fitMass + unsafeMass);
    var unsafeProbability := Over(unsafeMass, fitMass + unsafeMass);
    TimesLaws(fitMass, 1.0, 0.0);
    TimesLaws(unsafeMass, 1.0, 0.0);
    if fitMass + unsafeMass == 1.0 {
      OverUnique(fitMass, fitMass, 1.0);
      OverUnique(unsafeMass, unsafeMass, 1.0);
    }
    hide Over;
    var accept, reject := Times(m.unsafeAccept, unsafeProbability), Times(m.unnecessaryReject, fitProbability);
    b := Belief(probabilities, fitProbability, accept, reject, ChooseDecision(accept, reject));
    if Whole(m, probabilities) && m.unsafeAccept > 0.0 && m.unnecessaryReject > 0.0 {
      TimesPositive(m.unsafeAccept, Share(m, probabilities, false));
      TimesPositive(m.unnecessaryReject, Share(m, probabilities, true));
      AcceptsExactly(accept, reject);
    }
  }

  lemma ShareIsChosen(m: Model, p: seq<real>, want: bool)
    requires |p| == |m.fits|
    ensures Share(m, p, want) == Total(Chosen(p, m.fits, want))
  {
    ChosenIsSum(p, m.fits, want, i => if 0 <= i < |p| && i < |m.fits| && m.fits[i] == want then p[i] else 0.0);
  }

  datatype Branch = Branch(key: seq<string>, weights: seq<real>, probability: real, belief: Option<Belief>, risk: real)

  /** How much of a distribution over the states is on those that fit, or on the others. */
  ghost function Share(m: Model, p: seq<real>, want: bool): real {
    Sum(|p|, i => if 0 <= i < |p| && i < |m.fits| && m.fits[i] == want then p[i] else 0.0)
  }

  /** A distribution over the states. */
  ghost predicate Whole(m: Model, p: seq<real>) {
    Share(m, p, true) >= 0.0 && Share(m, p, false) >= 0.0 && Share(m, p, true) + Share(m, p, false) == 1.0
  }

  /** A belief: what it gives the fitting states, what either decision then risks, and the decision. */
  ghost predicate IsBelief(m: Model, b: Belief) {
    && b.fitProbability == Share(m, b.posterior, true) && Share(m, b.posterior, false) == 1.0 - b.fitProbability
    && b.accept == Times(m.unsafeAccept, Share(m, b.posterior, false))
    && b.reject == Times(m.unnecessaryReject, Share(m, b.posterior, true))
    && (b.decision == AcceptFit <==> b.accept < b.reject - 0.000000000001 * b.reject)
  }

  /** State by state, what a group of joint outcomes takes: the prior times the likelihoods of its outcomes. */
  ghost predicate IsWeights(m: Model, columns: seq<nat>, w: seq<real>) {
    && |w| == |m.prior|
    && forall i | 0 <= i < |w| ::
         w[i] == Times(m.prior[i],
                       Sum(|columns|, c => if 0 <= c < |columns| then Likelihood(m, i)(columns[c]) else 0.0))
  }

  /** What a branch is: its weights and probability, a belief unless it is impossible, and the loss it adds. */
  ghost predicate IsBranch(m: Model, g: Group, b: Branch) {
    && b.key == g.key && IsWeights(m, g.columns, b.weights)
    && b.probability == Sum(|b.weights|, i => if 0 <= i < |b.weights| then b.weights[i] else 0.0)
    && (b.belief.None? <==> b.probability == 0.0)
    && (b.belief.None? ==> b.risk == 0.0)
    && (b.belief.Some? ==>
          && |b.belief.value.posterior| == |b.weights|
          && (forall i | 0 <= i < |b.weights| :: b.belief.value.posterior[i] == Over(b.weights[i], b.probability))
          && IsBelief(m, b.belief.value)
          && b.risk == if b.belief.value.decision == AcceptFit
               then Times(m.unsafeAccept, Share(m, b.weights, false))
               else Times(m.unnecessaryReject, Share(m, b.weights, true)))
  }

  /** State by state, the joint probabilities of a group's outcomes, summed. */
  method WeightsOf(m: Model, columns: seq<nat>) returns (weights: seq<real>)
    ensures weights == Weights(m, columns)
  {
    hide Joint;
    weights := [];
    for i := 0 to |m.prior|
      invariant |weights| == i && weights == Weights(m, columns)[..i]
    {
      var products := [];
      for c := 0 to |columns|
        invariant |products| == c && Total(products) == ColumnSum(Joint(m, i), columns[..c])
      {
        TotalLast(products, Joint(m, i)(columns[c]));
        ColumnSumLast(Joint(m, i), columns[..c], columns[c]);
        assert columns[..c] + [columns[c]] == columns[..c + 1];
        products := products + [Joint(m, i)(columns[c])];
      }
      assert columns[..|columns|] == columns;
      var weight := CompensatedSum(products);
      weights := weights + [weight];
    }
  }

  /** The shares of a possible branch's probability that fit and that do not. */
  lemma SharesOfBelief(m: Model, columns: seq<nat>)
    requires Declared(m) && Probability(m, columns) > 0.0 && |m.prior| == |m.fits|
    ensures var p := Divided(Weights(m, columns), Probability(m, columns));
      var good, bad := Total(Chosen(p, m.fits, true)), Total(Chosen(p, m.fits, false));
      && good + bad == 1.0 && good >= 0.0 && bad >= 0.0
      && ChooseDecision(Times(m.unsafeAccept, bad), Times(m.unnecessaryReject, good))
         == ChooseDecision(AcceptRisk(m, columns), RejectRisk(m, columns))
  {
    hide Times, ChooseDecision, Mass, Declared, Weights, Probability;
    var w, mass := Weights(m, columns), Probability(m, columns);
    MassOfWeights(m, true, columns);
    MassOfWeights(m, false, columns);
    ChosenDivided(w, m.fits, true, mass);
    ChosenDivided(w, m.fits, false, mass);
    DividedTotal(Chosen(w, m.fits, true), mass);
    DividedTotal(Chosen(w, m.fits, false), mass);
    BeliefDecides(m, columns, Total(Divided(Chosen(w, m.fits, true), mass)),
      Total(Divided(Chosen(w, m.fits, false), mass)));
  }

  lemma {:induction false} ColumnSumIsSum(f: int -> real, columns: seq<nat>, g: int -> real)
    requires forall c | 0 <= c < |columns| :: g(c) == f(columns[c])
    ensures ColumnSum(f, columns) == Sum(|columns|, g)
  {
    if columns != [] { ColumnSumIsSum(f, columns[..|columns| - 1], g); }
  }

  lemma WeightsAreProducts(m: Model, columns: seq<nat>)
    ensures IsWeights(m, columns, Weights(m, columns))
  {
    hide Times, Likelihood;
    forall i | 0 <= i < |m.prior|
      ensures Weights(m, columns)[i] == Times(m.prior[i],
        Sum(|columns|, c => if 0 <= c < |columns| then Likelihood(m, i)(columns[c]) else 0.0))
    {
      var likely := (c: int) => if 0 <= c < |columns| then Likelihood(m, i)(columns[c]) else 0.0;
      var joint := (c: int) => Times(m.prior[i], likely(c));
      forall c | 0 <= c < |columns| ensures joint(c) == Joint(m, i)(columns[c]) {
        assert Joint(m, i)(columns[c]) == Times(Prior(m)(i), Likelihood(m, i)(columns[c]));
      }
      ColumnSumIsSum(Joint(m, i), columns, joint);
      SumScale(|columns|, m.prior[i], likely, joint);
    }
  }

  lemma TotalOfWeights(w: seq<real>)
    ensures Total(w) == Sum(|w|, i => if 0 <= i < |w| then w[i] else 0.0)
  {
    TotalIsSum(w, i => if 0 <= i < |w| then w[i] else 0.0);
  }

  method EvaluateBranch(m: Model, g: Group) returns (b: Branch)
    requires Declared(m)
    ensures IsBranch(m, g, b)
    ensures b.probability == Probability(m, g.columns) && b.risk == BranchLoss(m, ChooseDecision, g.columns)
  {
    hide Times, ChooseDecision, Mass, Declared, Weights, Chosen, IsWeights, Share, IsBelief;
    SameLength(m);
    LossesPositive(m);
    var weights := WeightsOf(m, g.columns);
    WeightsAreProducts(m, g.columns);
    TotalOfWeights(weights);
    var probability := CompensatedSum(weights);
    var unsafeMass := CompensatedSum(Chosen(weights, m.fits, false));
    var fitMass := CompensatedSum(Chosen(weights, m.fits, true));
    ShareIsChosen(m, weights, true);
    ShareIsChosen(m, weights, false);
    MassOfWeights(m, true, g.columns);
    MassOfWeights(m, false, g.columns);
    ProbabilityIsMass(m, g.columns);
    var accept, reject := Times(m.unsafeAccept, unsafeMass), Times(m.unnecessaryReject, fitMass);
    if probability > 0.0 {
      var p := Divided(weights, probability);
      var belief := BeliefOf(m, p);
      SharesOfBelief(m, g.columns);
      ShareIsChosen(m, p, true);
      ShareIsChosen(m, p, false);
      b := Branch(g.key, weights, probability, Some(belief), LossOf(belief.decision, accept, reject));
    } else {
      MassNonnegative(m, true, g.columns);
      MassNonnegative(m, false, g.columns);
      ImpossibleBranch(m, g.columns);
      b := Branch(g.key, weights, probability, None, reject);
    }
  }

  lemma ImpossibleBranch(m: Model, columns: seq<nat>)
    requires Mass(m, true, columns) == 0.0 && Mass(m, false, columns) == 0.0
    ensures BranchLoss(m, ChooseDecision, columns) == RejectRisk(m, columns) == 0.0
  {
  }

  lemma SameLength(m: Model)
    requires Declared(m)
    ensures |m.prior| == |m.fits|
  {
  }

  /* ---- Totals over groups, in any order ---- */

  function OverAll(f: Group -> real, gs: seq<Group>): real {
    if gs == [] then 0.0 else OverAll(f, gs[..|gs| - 1]) + f(gs[|gs| - 1])
  }

  lemma {:induction false} OverAllFirst(f: Group -> real, g: Group, gs: seq<Group>)
    ensures OverAll(f, [g] + gs) == f(g) + OverAll(f, gs)
  {
    if gs == [] {
      assert ([g] + gs)[..0] == [];
    } else {
      var n := |gs| - 1;
      assert ([g] + gs)[..n + 1] == [g] + gs[..n];
      OverAllFirst(f, g, gs[..n]);
    }
  }

  lemma {:induction false} OverAllInsert(f: Group -> real, cmp: (Group, Group) -> int, g: Group, gs: seq<Group>)
    ensures OverAll(f, Insert(cmp, g, gs)) == f(g) + OverAll(f, gs)
  {
    if gs == [] || cmp(g, gs[0]) <= 0 {
      OverAllFirst(f, g, gs);
    } else {
      OverAllInsert(f, cmp, g, gs[1..]);
      OverAllFirst(f, gs[0], Insert(cmp, g, gs[1..]));
      OverAllFirst(f, gs[0], gs[1..]);
      assert gs == [gs[0]] + gs[1..];
    }
  }

  lemma {:induction false} OverAllSorted(f: Group -> real, cmp: (Group, Group) -> int, gs: seq<Group>)
    ensures OverAll(f, Sort(cmp, gs)) == OverAll(f, gs)
  {
    if gs != [] {
      OverAllSorted(f, cmp, gs[1..]);
      OverAllInsert(f, cmp, gs[0], Sort(cmp, gs[1..]));
      OverAllFirst(f, gs[0], gs[1..]);
      assert gs == [gs[0]] + gs[1..];
    }
  }

  lemma {:induction false} TotalOverAll(f: Group -> real, gs: seq<Group>, values: seq<real>)
    requires |values| == |gs| && forall i | 0 <= i < |gs| :: values[i] == f(gs[i])
    ensures Total(values) == OverAll(f, gs)
  {
    if gs != [] { TotalOverAll(f, gs[..|gs| - 1], values[..|gs| - 1]); }
  }

  function RiskOf(m: Model): Group -> real { (g: Group) => BranchLoss(m, ChooseDecision, g.columns) }

  function ProbabilityOf(m: Model): Group -> real { (g: Group) => Probability(m, g.columns) }

  lemma {:induction false} LossOverAll(m: Model, gs: seq<Group>)
    ensures OverAll(RiskOf(m), gs) == ExpectedLoss(m, ChooseDecision, gs)
  {
    hide BranchLoss;
    if gs != [] { LossOverAll(m, gs[..|gs| - 1]); }
  }

  /** All that any group of joint outcomes takes from the states. */
  function AllMassAt(m: Model): int -> real { j => MassAt(m, true)(j) + MassAt(m, false)(j) }

  lemma {:induction false} ColumnSumAdd(f: int -> real, g: int -> real, h: int -> real, columns: seq<nat>)
    requires forall j | j in columns :: h(j) == f(j) + g(j)
    ensures ColumnSum(h, columns) == ColumnSum(f, columns) + ColumnSum(g, columns)
  {
    if columns != [] {
      var n := |columns| - 1;
      assert columns[n] in columns && forall j | j in columns[..n] :: j in columns;
      ColumnSumAdd(f, g, h, columns[..n]);
    }
  }

  lemma {:induction false} ProbabilityOverAll(m: Model, gs: seq<Group>)
    requires Declared(m)
    ensures OverAll(ProbabilityOf(m), gs) == GroupSum(AllMassAt(m), gs)
  {
    hide Declared, Probability, MassAt;
    if gs != [] {
      var n := |gs| - 1;
      ProbabilityOverAll(m, gs[..n]);
      ProbabilityIsMass(m, gs[n].columns);
      ColumnSumAdd(MassAt(m, true), MassAt(m, false), AllMassAt(m), gs[n].columns);
    }
  }

  lemma JointRowSum(m: Model, i: int)
    requires Declared(m) && 0 <= i < |m.prior|
    ensures Sum(|m.joints|, Joint(m, i)) == m.prior[i]
  {
    SumScale(|m.joints|, m.prior[i], Likelihood(m, i), Joint(m, i));
    TimesLaws(m.prior[i], 0.0, 0.0);
  }

  lemma AllMassIsOne(m: Model)
    requires Declared(m)
    ensures Sum(|m.joints|, AllMassAt(m)) == 1.0
  {
    var h := (i: int, j: int) => Joint(m, i)(j);
    var column := (j: int) => Sum(|m.prior|, (i: int) => h(i, j));
    forall j | 0 <= j < |m.joints| ensures AllMassAt(m)(j) == column(j) {
      var across := (i: int) => h(i, j);
      MassAtSplits(m, j, across);
    }
    SumCongruent(|m.joints|, AllMassAt(m), column);
    var row := (i: int) => Sum(|m.joints|, (j: int) => h(i, j));
    forall i | 0 <= i < |m.prior| ensures row(i) == Prior(m)(i) {
      SumCongruent(|m.joints|, Joint(m, i), (j: int) => h(i, j));
      JointRowSum(m, i);
    }
    SumCongruent(|m.prior|, row, Prior(m));
    SumSwap(|m.prior|, |m.joints|, h, row, column);
  }

  lemma MassAtSplits(m: Model, j: int, all: int -> real)
    requires Declared(m) && forall i :: all(i) == Joint(m, i)(j)
    ensures AllMassAt(m)(j) == Sum(|m.prior|, all)
  {
    hide Joint;
    var good := (i: int) => if 0 <= i < |m.fits| && m.fits[i] == true then Joint(m, i)(j) else 0.0;
    var bad := (i: int) => if 0 <= i < |m.fits| && m.fits[i] == false then Joint(m, i)(j) else 0.0;
    SumAdd(|m.prior|, good, bad, all);
    assert MassAt(m, true)(j) == Sum(|m.prior|, good) && MassAt(m, false)(j) == Sum(|m.prior|, bad);
  }

  /** Whatever is measured, the branches' probabilities sum to one. */
  lemma BranchProbabilitiesSumToOne(m: Model, selected: seq<nat>)
    requires Declared(m) && Shaped(m, selected)
    ensures OverAll(ProbabilityOf(m), GroupsOf(m, selected, |m.joints|)) == 1.0
  {
    hide Declared, AllMassAt;
    var gs := GroupsOf(m, selected, |m.joints|);
    ProbabilityOverAll(m, gs);
    GroupingKeepsSum(m, selected, |m.joints|, AllMassAt(m));
    AllMassIsOne(m);
  }

  /** Whatever is measured, the branches' posteriors, weighted by their probabilities, average to the prior. */
  lemma PosteriorsAverageToPrior(m: Model, selected: seq<nat>, i: nat)
    requires Declared(m) && Shaped(m, selected) && i < |m.prior|
    ensures OverAll((g: Group) =>
      Times(Probability(m, g.columns), Over(Weights(m, g.columns)[i], Probability(m, g.columns))),
                    GroupsOf(m, selected, |m.joints|)) == m.prior[i]
  {
    var gs := GroupsOf(m, selected, |m.joints|);
    var f := (g: Group) => Times(Probability(m, g.columns), Over(Weights(m, g.columns)[i], Probability(m, g.columns)));
    WeightOverAll(m, i, gs, f);
    GroupingKeepsSum(m, selected, |m.joints|, Joint(m, i));
    JointRowSum(m, i);
  }

  lemma {:induction false} WeightOverAll(m: Model, i: nat, gs: seq<Group>, f: Group -> real)
    requires Declared(m) && i < |m.prior|
    requires forall g: Group ::
      f(g) == Times(Probability(m, g.columns), Over(Weights(m, g.columns)[i], Probability(m, g.columns)))
    ensures OverAll(f, gs) == GroupSum(Joint(m, i), gs)
  {
    hide Declared, Times, Over, Joint, Probability;
    if gs != [] {
      var g := gs[|gs| - 1];
      WeightOverAll(m, i, gs[..|gs| - 1], f);
      if Probability(m, g.columns) != 0.0 {
        OverLaws(Weights(m, g.columns)[i], Probability(m, g.columns));
      } else {
        NoWeight(m, g.columns, i);
        TimesLaws(Over(0.0, 0.0), 0.0, 0.0);
        TimesLaws(0.0, Over(0.0, 0.0), 0.0);
      }
    }
  }

  /** An impossible branch takes nothing from any state. */
  lemma NoWeight(m: Model, columns: seq<nat>, i: nat)
    requires Declared(m) && i < |m.prior| && Probability(m, columns) == 0.0
    ensures Weights(m, columns)[i] == 0.0
  {
    var w := Weights(m, columns);
    forall k | 0 <= k < |w| ensures w[k] >= 0.0 {
      forall j | j in columns ensures Joint(m, k)(j) >= 0.0 { JointNonnegative(m, k, j); }
      ColumnSumNonnegative(Joint(m, k), columns);
    }
    PartOfTotal(w, i);
  }

  lemma {:induction false} PartOfTotal(w: seq<real>, i: nat)
    requires i < |w| && forall k | 0 <= k < |w| :: w[k] >= 0.0
    ensures 0.0 <= w[i] <= Total(w)
  {
    var n := |w| - 1;
    if n > 0 {
      if i < n { PartOfTotal(w[..n], i); } else { PartOfTotal(w[..n], n - 1); }
    }
  }

  /* ---- Deciding now, and when measuring is refused ---- */

  function PriorAcceptRisk(m: Model): real
    requires |m.prior| == |m.fits|
  {
    Times(m.unsafeAccept, Total(Chosen(m.prior, m.fits, false)))
  }

  function PriorRejectRisk(m: Model): real
    requires |m.prior| == |m.fits|
  {
    Times(m.unnecessaryReject, Total(Chosen(m.prior, m.fits, true)))
  }

  function CurrentDecision(m: Model): Decision
    requires |m.prior| == |m.fits|
  {
    ChooseDecision(PriorAcceptRisk(m), PriorRejectRisk(m))
  }

  /** The loss of deciding now, on the prior alone. */
  function CurrentLoss(m: Model): real
    requires |m.prior| == |m.fits|
  {
    LossOf(CurrentDecision(m), PriorAcceptRisk(m), PriorRejectRisk(m))
  }

  /** By how much rejecting is riskier than accepting, over the groups that are rejected. */
  function RejectedExcess(m: Model, gs: seq<Group>): real {
    if gs == [] then 0.0
    else
      var columns := gs[|gs| - 1].columns;
      var accept, reject := AcceptRisk(m, columns), RejectRisk(m, columns);
      RejectedExcess(m, gs[..|gs| - 1]) + (if ChooseDecision(accept, reject) == RejectFit then reject - accept else 0.0)
  }

  lemma {:induction false} UnmeasuredGroups(m: Model, n: nat)
    requires Shaped(m, []) && n <= |m.joints|
    ensures var gs := GroupsOf(m, [], n);
      if n == 0 then gs == [] else |gs| == 1 && gs[0].key == []
  {
    if n > 0 {
      UnmeasuredGroups(m, n - 1);
      assert KeyOf(m, [], n - 1) == [];
    }
  }

  lemma PriorMass(m: Model, fits: bool)
    requires Declared(m)
    ensures Sum(|m.joints|, MassAt(m, fits)) == Total(Chosen(m.prior, m.fits, fits))
  {
    var h := (i: int, j: int) => if 0 <= i < |m.fits| && m.fits[i] == fits then Joint(m, i)(j) else 0.0;
    var column := (j: int) => Sum(|m.prior|, (i: int) => h(i, j));
    forall j | 0 <= j < |m.joints| ensures MassAt(m, fits)(j) == column(j) {
      var f := (i: int) => if 0 <= i < |m.fits| && m.fits[i] == fits then Joint(m, i)(j) else 0.0;
      assert MassAt(m, fits)(j) == Sum(|m.prior|, f);
      SumCongruent(|m.prior|, f, (i: int) => h(i, j));
    }
    SumCongruent(|m.joints|, MassAt(m, fits), column);
    var row := (i: int) => Sum(|m.joints|, (j: int) => h(i, j));
    var f := (i: int) => if 0 <= i < |m.fits| && m.fits[i] == fits then m.prior[i] else 0.0;
    forall i | 0 <= i < |m.prior| ensures row(i) == f(i) {
      var zero := (j: int) => h(i, j);
      if m.fits[i] == fits {
        SumCongruent(|m.joints|, Joint(m, i), (j: int) => h(i, j));
        JointRowSum(m, i);
      } else {
        SumTail(|m.joints|, 0, (j: int) => h(i, j));
      }
    }
    SumCongruent(|m.prior|, row, f);
    SumSwap(|m.prior|, |m.joints|, h, row, column);
    ChosenIsSum(m.prior, m.fits, fits, f);
  }

  /** Deciding now is the evaluation of no measurement at all. */
  lemma UnmeasuredIsCurrent(m: Model)
    requires Declared(m) && Shaped(m, [])
    ensures |m.prior| == |m.fits| && ExpectedLoss(m, ChooseDecision, GroupsOf(m, [], |m.joints|)) == CurrentLoss(m)
  {
    hide Declared, ChooseDecision, MassAt, Times;
    SameLength(m);
    var n := |m.joints|;
    var gs := GroupsOf(m, [], n);
    UnmeasuredGroups(m, n);
    SomeJoint(m);
    assert gs[..0] == [];
    GroupingKeepsSum(m, [], n, MassAt(m, true));
    GroupingKeepsSum(m, [], n, MassAt(m, false));
    PriorMass(m, true);
    PriorMass(m, false);
  }

  lemma SomeJoint(m: Model)
    requires Declared(m)
    ensures |m.joints| > 0
  {
    assert |m.prior| > 0;
    assert Sum(|m.joints|, Likelihood(m, 0)) == 1.0;
  }

  /** The risk of accepting in every group, and of rejecting in every group. */
  function AcceptRisks(m: Model, gs: seq<Group>): real {
    if gs == [] then 0.0 else AcceptRisks(m, gs[..|gs| - 1]) + AcceptRisk(m, gs[|gs| - 1].columns)
  }

  function RejectRisks(m: Model, gs: seq<Group>): real {
    if gs == [] then 0.0 else RejectRisks(m, gs[..|gs| - 1]) + RejectRisk(m, gs[|gs| - 1].columns)
  }

  lemma {:induction false} RisksOfGroups(m: Model, gs: seq<Group>)
    ensures AcceptRisks(m, gs) == Times(m.unsafeAccept, GroupSum(MassAt(m, false), gs))
    ensures RejectRisks(m, gs) == Times(m.unnecessaryReject, GroupSum(MassAt(m, true), gs))
  {
    hide Times, MassAt, ColumnSum;
    TimesLaws(m.unsafeAccept, 0.0, 0.0);
    TimesLaws(m.unnecessaryReject, 0.0, 0.0);
    if gs != [] {
      var n := |gs| - 1;
      RisksOfGroups(m, gs[..n]);
      TimesLaws(m.unsafeAccept, GroupSum(MassAt(m, false), gs[..n]), ColumnSum(MassAt(m, false), gs[n].columns));
      TimesLaws(m.unnecessaryReject, GroupSum(MassAt(m, true), gs[..n]), ColumnSum(MassAt(m, true), gs[n].columns));
    }
  }

  /** Whatever is measured, the groups' risks add up to the risks of deciding now. */
  lemma RisksAddUp(m: Model, selected: seq<nat>)
    requires Declared(m) && Shaped(m, selected) && |m.prior| == |m.fits|
    ensures AcceptRisks(m, GroupsOf(m, selected, |m.joints|)) == PriorAcceptRisk(m)
    ensures RejectRisks(m, GroupsOf(m, selected, |m.joints|)) == PriorRejectRisk(m)
  {
    hide Declared, MassAt, Times, GroupsOf, Chosen;
    RisksOfGroups(m, GroupsOf(m, selected, |m.joints|));
    GroupingKeepsSum(m, selected, |m.joints|, MassAt(m, true));
    GroupingKeepsSum(m, selected, |m.joints|, MassAt(m, false));
    PriorMass(m, true);
    PriorMass(m, false);
  }

  /**
   The loss is what accepting everywhere risks and the excess of the groups rejected; rejecting everywhere is no
   better.
   */
  lemma {:induction false} LossSplits(m: Model, gs: seq<Group>)
    requires Declared(m)
    ensures ExpectedLoss(m, ChooseDecision, gs) == AcceptRisks(m, gs) + RejectedExcess(m, gs)
    ensures ExpectedLoss(m, ChooseDecision, gs) <= RejectRisks(m, gs)
    ensures AcceptRisks(m, gs) >= 0.0
    ensures (1.0 - TOLERANCE) * RejectedExcess(m, gs) <= TOLERANCE * AcceptRisks(m, gs)
  {
    hide Declared, AcceptRisk, RejectRisk;
    if gs != [] {
      LossSplits(m, gs[..|gs| - 1]);
      RisksNonnegative(m, gs[|gs| - 1].columns);
    }
  }

  /** Whether measuring would be refused: read from the risks, before any loss is summed. */
  predicate Refusable(m: Model, gs: seq<Group>)
    requires |m.prior| == |m.fits|
  {
    CurrentDecision(m) == AcceptFit && RejectedExcess(m, gs) > TOLERANCE * Max(1.0, PriorAcceptRisk(m))
  }

  /**
   Measuring loses more than the tolerance forgives exactly when accepting is the decision now, and in the groups
   rejected all the same rejecting is riskier by more than that.
   */
  lemma RefusedExactly(m: Model, selected: seq<nat>)
    requires Declared(m) && Shaped(m, selected) && |m.prior| == |m.fits|
    ensures var gs := GroupsOf(m, selected, |m.joints|);
      ExpectedLoss(m, ChooseDecision, gs) - CurrentLoss(m) > TOLERANCE * Max(1.0, CurrentLoss(m)) <==> Refusable(m, gs)
  {
    hide Declared, GroupsOf, ExpectedLoss, RejectedExcess, AcceptRisks, RejectRisks, PriorAcceptRisk, PriorRejectRisk,
      ChooseDecision;
    RisksAddUp(m, selected);
    LossSplits(m, GroupsOf(m, selected, |m.joints|));
  }

  /** When rejecting is the decision now, no measurement is refused. */
  lemma NeverRefusedWhenRejecting(m: Model, selected: seq<nat>)
    requires Declared(m) && Shaped(m, selected) && |m.prior| == |m.fits| && CurrentDecision(m) == RejectFit
    ensures ExpectedLoss(m, ChooseDecision, GroupsOf(m, selected, |m.joints|)) <= CurrentLoss(m)
  {
    hide Declared, GroupsOf, ExpectedLoss, RejectedExcess, AcceptRisks, RejectRisks, PriorAcceptRisk, PriorRejectRisk,
      ChooseDecision;
    RisksAddUp(m, selected);
    LossSplits(m, GroupsOf(m, selected, |m.joints|));
  }

  /** When accepting now risks at most one less the tolerance, no measurement is refused. */
  lemma NeverRefusedAtSmallRisk(m: Model, selected: seq<nat>)
    requires Declared(m) && Shaped(m, selected) && |m.prior| == |m.fits| && PriorAcceptRisk(m) <= 1.0 - TOLERANCE
    ensures !Refusable(m, GroupsOf(m, selected, |m.joints|))
  {
    hide Declared, GroupsOf, ExpectedLoss, RejectedExcess, AcceptRisks, RejectRisks, PriorAcceptRisk, PriorRejectRisk,
      ChooseDecision;
    RisksAddUp(m, selected);
    LossSplits(m, GroupsOf(m, selected, |m.joints|));
  }

  /* ---- The evaluation of a set of measurements ---- */

  datatype Evaluation =
    | Evaluated(branches: seq<Branch>, expectedDecisionLoss: real, informationValue: real, cost: real, netValue: real)
    | ProbabilityMassError
    | NegativeInformationValue

  function ByKey(a: Group, b: Group): int { CompareIds(a.key, b.key) }

  function CostsOf(m: Model, selected: seq<nat>): seq<real>
    requires Declared(m) && Shaped(m, selected)
  {
    seq(|selected|, k requires 0 <= k < |selected| =>
      assert selected[k] in selected;
      m.costs[selected[k]])
  }

  /** What the selected action, alone, could show and the joint outcomes never do. */
  ghost predicate CannotBe(m: Model, selected: seq<nat>, g: Group)
    requires Shaped(m, selected)
  {
    && g.columns == [] && |selected| == 1 && selected[0] in selected
    && exists o | o in m.outcomeIds[selected[0]] :: g.key == [o]
  }

  /**
   One group for every way the joint outcomes look, holding all that look so, and with one action selected one for
   every outcome it could show.
   */
  ghost predicate Branches(m: Model, selected: seq<nat>, gs: seq<Group>)
    requires Shaped(m, selected)
  {
    && Distinct(gs) && (forall g, h | g in gs && h in gs && g.key == h.key :: g == h)
    && (forall g | g in gs :: Holds(m, selected, g, |m.joints|) && (g.columns != [] || CannotBe(m, selected, g)))
    && (forall j: nat | j < |m.joints| :: exists g | g in gs :: g.key == KeyOf(m, selected, j))
    && (|selected| == 1 && selected[0] in selected ==>
          forall o | o in m.outcomeIds[selected[0]] :: exists g | g in gs :: g.key == [o])
  }

  /** Those groups, in the order of their keys. */
  ghost predicate Covers(m: Model, selected: seq<nat>, gs: seq<Group>)
    requires Shaped(m, selected)
  {
    Branches(m, selected, gs) && Ascending(ByKey, gs)
  }

  /** The groups so far are those of the joint outcomes, and one for each of the action's first k outcomes. */
  ghost predicate Extended(m: Model, selected: seq<nat>, before: seq<Group>, gs: seq<Group>, k: nat)
    requires Shaped(m, selected) && |selected| == 1 && selected[0] in selected && k <= |m.outcomeIds[selected[0]]|
  {
    var outcomes := m.outcomeIds[selected[0]];
    && before <= gs && (forall i, j | 0 <= i < j < |gs| :: gs[i].key != gs[j].key)
    && (forall i | |before| <= i < |gs| :: gs[i].columns == [] && exists o | o in outcomes :: gs[i].key == [o])
    && forall c | 0 <= c < k :: exists i | 0 <= i < |gs| :: gs[i].key == [outcomes[c]]
  }

  lemma ExtendedCovers(m: Model, selected: seq<nat>, before: seq<Group>, gs: seq<Group>)
    requires Shaped(m, selected) && Grouped(m, selected, before, |m.joints|) && before <= gs
    requires |selected| == 1 && selected[0] in selected
    requires Extended(m, selected, before, gs, |m.outcomeIds[selected[0]]|)
    ensures Branches(m, selected, gs)
  {
    hide KeyOf;
    var outcomes := m.outcomeIds[selected[0]];
    forall i | 0 <= i < |gs|
      ensures Holds(m, selected, gs[i], |m.joints|) && (gs[i].columns != [] || CannotBe(m, selected, gs[i])) {
      if i < |before| {
        assert gs[i] == before[i];
      } else {
        forall j: nat | j < |m.joints| ensures KeyOf(m, selected, j) != gs[i].key {
          var k :| 0 <= k < |before| && before[k].key == KeyOf(m, selected, j);
          assert gs[k] == before[k];
        }
      }
    }
    forall j: nat | j < |m.joints| ensures exists g | g in gs :: g.key == KeyOf(m, selected, j) {
      var k :| 0 <= k < |before| && before[k].key == KeyOf(m, selected, j);
      assert gs[k] == before[k] && gs[k] in gs;
    }
    forall o | o in outcomes ensures exists g | g in gs :: g.key == [o] {
      var c :| 0 <= c < |outcomes| && outcomes[c] == o;
      var i :| 0 <= i < |gs| && gs[i].key == [outcomes[c]];
      assert gs[i] in gs;
    }
  }

  lemma GroupedCovers(m: Model, selected: seq<nat>, gs: seq<Group>)
    requires Shaped(m, selected) && Grouped(m, selected, gs, |m.joints|) && |selected| != 1
    ensures Branches(m, selected, gs)
  {
    hide KeyOf, Holds;
    assert Distinct(gs) && forall g, h | g in gs && h in gs && g.key == h.key :: g == h;
    forall g | g in gs ensures Holds(m, selected, g, |m.joints|) && g.columns != [] {
      var k :| 0 <= k < |gs| && gs[k] == g;
    }
    forall j: nat | j < |m.joints| ensures exists g | g in gs :: g.key == KeyOf(m, selected, j) {
      assert exists i | 0 <= i < |gs| :: gs[i].key == KeyOf(m, selected, j);
      var k :| 0 <= k < |gs| && gs[k].key == KeyOf(m, selected, j);
      assert gs[k] in gs;
    }
  }

  lemma SortedCovers(m: Model, selected: seq<nat>, unsorted: seq<Group>, gs: seq<Group>)
    requires Shaped(m, selected) && Branches(m, selected, unsorted) && gs == Sort(ByKey, unsorted)
    ensures Covers(m, selected, gs)
  {
    hide KeyOf, Holds, CannotBe, CompareIds;
    SameElements(gs, unsorted);
    DistinctThrough(unsorted, gs);
    assert Preorder(ByKey) by {
      IdListOrderIsTotal();
      TotalIsPreorder(CompareIds);
    }
    SortSorts(ByKey, unsorted);
  }

  /** The groups of the joint outcomes, and with one action a group for each outcome it could show, sorted. */
  method Groups(m: Model, selected: seq<nat>) returns (gs: seq<Group>)
    requires Shaped(m, selected)
    ensures Covers(m, selected, gs)
    ensures forall f: Group -> real :: (forall key :: f(Group(key, [])) == 0.0) ==>
      OverAll(f, gs) == OverAll(f, GroupsOf(m, selected, |m.joints|))
  {
    hide KeyOf, AddTo, ByKey, Covers, Branches, Grouped;
    gs := [];
    for j := 0 to |m.joints|
      invariant gs == GroupsOf(m, selected, j)
    {
      gs := AddTo(gs, KeyOf(m, selected, j), j);
    }
    GroupsAreExact(m, selected, |m.joints|);
    ghost var before := gs;
    if |selected| == 1 {
      assert selected[0] in selected;
      var outcomes := m.outcomeIds[selected[0]];
      GroupedKeys(m, selected, gs);
      for k := 0 to |outcomes|
        invariant Extended(m, selected, before, gs, k)
        invariant forall f: Group -> real :: (forall key :: f(Group(key, [])) == 0.0) ==>
          OverAll(f, gs) == OverAll(f, before)
      {
        var at := IndexOf(gs, [outcomes[k]]);
        if at == |gs| {
          var g := Group([outcomes[k]], []);
          assert (gs + [g])[..|gs|] == gs;
          assert outcomes[k] in outcomes;
          gs := gs + [g];
        }
        assert gs[at].key == [outcomes[k]];
      }
      ExtendedCovers(m, selected, before, gs);
    } else {
      GroupedCovers(m, selected, gs);
    }
    var unsorted := gs;
    gs := Sort(ByKey, unsorted);
    SortedCovers(m, selected, unsorted, gs);
    forall f: Group -> real ensures OverAll(f, gs) == OverAll(f, unsorted) { OverAllSorted(f, ByKey, unsorted); }
  }

  lemma GroupedKeys(m: Model, selected: seq<nat>, gs: seq<Group>)
    requires Shaped(m, selected) && Grouped(m, selected, gs, |m.joints|)
    ensures forall i, j | 0 <= i < j < |gs| :: gs[i].key != gs[j].key
  {
  }

  /** The loss of deciding now. */
  method DecideNow(m: Model) returns (current: real)
    requires Declared(m) && |m.prior| == |m.fits|
    ensures current == CurrentLoss(m)
  {
    hide Declared, ChooseDecision, CurrentDecision, IsBelief;
    var b := BeliefOf(m, m.prior);
    PriorIsWhole(m);
    DecidesNow(m, b);
    current := LossOf(b.decision, b.accept, b.reject);
  }

  method EvaluateBranches(m: Model, gs: seq<Group>) returns (branches: seq<Branch>)
    requires Declared(m)
    ensures |branches| == |gs|
    ensures forall k | 0 <= k < |gs| ::
      && IsBranch(m, gs[k], branches[k]) && branches[k].probability == ProbabilityOf(m)(gs[k])
      && branches[k].risk == RiskOf(m)(gs[k])
  {
    hide Declared, IsBranch, Probability, BranchLoss;
    branches := [];
    for i := 0 to |gs|
      invariant |branches| == i
      invariant forall k | 0 <= k < i ::
        && IsBranch(m, gs[k], branches[k]) && branches[k].probability == ProbabilityOf(m)(gs[k])
        && branches[k].risk == RiskOf(m)(gs[k])
    {
      var b := EvaluateBranch(m, gs[i]);
      branches := branches + [b];
    }
  }

  /**
   Enumerates the branches of a measurement. In exact arithmetic the masses always add up, and each branch is what
   its group says; the loss is the expected loss of the groups; and the evaluation is refused exactly when accepting
   is the decision now and the groups rejected all the same cost more than the tolerance forgives.
   */
  method Evaluate(m: Model, selected: seq<nat>) returns (r: Evaluation, ghost gs: seq<Group>)
    requires Declared(m) && Shaped(m, selected) && |m.prior| == |m.fits|
    ensures !r.ProbabilityMassError?
    ensures r.NegativeInformationValue? <==> Refusable(m, GroupsOf(m, selected, |m.joints|))
    ensures r.Evaluated? ==>
      && Covers(m, selected, gs) && |r.branches| == |gs|
      && (forall k | 0 <= k < |gs| :: IsBranch(m, gs[k], r.branches[k]))
      && Total(Probabilities(r.branches)) == 1.0 && r.expectedDecisionLoss == Total(Risks(r.branches))
    ensures r.Evaluated? ==>
      && r.expectedDecisionLoss == ExpectedLoss(m, ChooseDecision, GroupsOf(m, selected, |m.joints|))
      && r.informationValue == Max(0.0, CurrentLoss(m) - r.expectedDecisionLoss)
      && r.cost == Sum(|selected|, k =>
           if 0 <= k < |selected| && selected[k] < |m.costs| then m.costs[selected[k]] else 0.0)
      && r.netValue == r.informationValue - r.cost
  {
    hide Declared, GroupsOf, ProbabilityOf, RiskOf, Covers, CurrentLoss, Refusable, IsBranch, CostsOf;
    var current := DecideNow(m);
    var groups := Groups(m, selected);
    gs := groups;
    EmptyGroupsAddNothing(m);
    var branches := EvaluateBranches(m, groups);
    var probabilities, risks := Probabilities(branches), Risks(branches);
    var mass := CompensatedSum(probabilities);
    TotalOverAll(ProbabilityOf(m), groups, probabilities);
    BranchProbabilitiesSumToOne(m, selected);
    if mass - 1.0 > TOLERANCE || 1.0 - mass > TOLERANCE { return ProbabilityMassError, gs; }
    var loss := CompensatedSum(risks);
    RisksAreLoss(m, selected, groups, risks);
    var value := current - Over(loss, mass);
    OverUnique(loss, loss, 1.0);
    RefusedExactly(m, selected);
    if value < 0.0 {
      if value < -(TOLERANCE * Max(1.0, current)) { return NegativeInformationValue, gs; }
      value := 0.0;
    }
    var cost := CompensatedSum(CostsOf(m, selected));
    CostsAreSummed(m, selected);
    return Evaluated(branches, Over(loss, mass), value, cost, value - cost), gs;
  }

  function Probabilities(branches: seq<Branch>): (p: seq<real>)
    ensures |p| == |branches|
  {
    seq(|branches|, k requires 0 <= k < |branches| => branches[k].probability)
  }

  function Risks(branches: seq<Branch>): (p: seq<real>)
    ensures |p| == |branches|
  {
    seq(|branches|, k requires 0 <= k < |branches| => branches[k].risk)
  }

  lemma DecidesNow(m: Model, b: Belief)
    requires |m.prior| == |m.fits| && b.accept == PriorAcceptRisk(m) && b.reject == PriorRejectRisk(m)
    requires b.decision == ChooseDecision(b.accept, b.reject)
    ensures LossOf(b.decision, b.accept, b.reject) == CurrentLoss(m)
  {
  }

  lemma PriorIsWhole(m: Model)
    requires Declared(m)
    ensures Total(Chosen(m.prior, m.fits, true)) + Total(Chosen(m.prior, m.fits, false)) == 1.0
  {
    var good := (i: int) => if 0 <= i < |m.prior| && m.fits[i] == true then m.prior[i] else 0.0;
    var bad := (i: int) => if 0 <= i < |m.prior| && m.fits[i] == false then m.prior[i] else 0.0;
    ChosenIsSum(m.prior, m.fits, true, good);
    ChosenIsSum(m.prior, m.fits, false, bad);
    SumAdd(|m.prior|, good, bad, Prior(m));
  }

  lemma EmptyGroupsAddNothing(m: Model)
    requires Declared(m)
    ensures forall key :: RiskOf(m)(Group(key, [])) == 0.0 && ProbabilityOf(m)(Group(key, [])) == 0.0
  {
    forall key: seq<string> ensures RiskOf(m)(Group(key, [])) == 0.0 && ProbabilityOf(m)(Group(key, [])) == 0.0 {
      ProbabilityIsMass(m, []);
      ImpossibleBranch(m, []);
    }
  }

  lemma CostsAreSummed(m: Model, selected: seq<nat>)
    requires Declared(m) && Shaped(m, selected)
    ensures Total(CostsOf(m, selected)) == Sum(|selected|, k =>
      if 0 <= k < |selected| && selected[k] < |m.costs| then m.costs[selected[k]] else 0.0)
  {
    forall k | 0 <= k < |selected| ensures selected[k] < |m.costs| { assert selected[k] in selected; }
    TotalIsSum(CostsOf(m, selected), k =>
      if 0 <= k < |selected| && selected[k] < |m.costs| then m.costs[selected[k]] else 0.0);
  }

  /** Summed over the branches as listed, the risks are the expected loss of the groups. */
  lemma RisksAreLoss(m: Model, selected: seq<nat>, gs: seq<Group>, risks: seq<real>)
    requires Declared(m) && Shaped(m, selected)
    requires forall f: Group -> real :: (forall key :: f(Group(key, [])) == 0.0) ==>
      OverAll(f, gs) == OverAll(f, GroupsOf(m, selected, |m.joints|))
    requires |risks| == |gs| && forall k | 0 <= k < |gs| :: risks[k] == RiskOf(m)(gs[k])
    ensures Total(risks) == ExpectedLoss(m, ChooseDecision, GroupsOf(m, selected, |m.joints|))
  {
    hide Declared, ChooseDecision, GroupsOf, BranchLoss;
    TotalOverAll(RiskOf(m), gs, risks);
    EmptyGroupsAddNothing(m);
    LossOverAll(m, GroupsOf(m, selected, |m.joints|));
  }
}
