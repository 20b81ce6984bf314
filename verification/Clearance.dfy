/**
 The value of a clearance measurement (src/compute/clearance-voi.ts): exact enumeration of a finite Bayesian
 decision, over the reals.
 */
module Clearance {
  import opened RealSums

  const TOLERANCE := 0.000000000001

  /* ---- Sums ---- */

  function Total(values: seq<real>): real {
    if values == [] then 0.0 else Total(values[..|values| - 1]) + values[|values| - 1]
  }

  /** Compensated summation; in exact arithmetic the correction is always zero. */
  method CompensatedSum(values: seq<real>) returns (total: real)
    ensures total == Total(values)
  {
    var correction := 0.0;
    total := 0.0;
    for i := 0 to |values|
      invariant correction == 0.0 && total == Total(values[..i])
    {
      var next := values[i] - correction;
      var result := total + next;
      correction := (result - total) - next;
      total := result;
      assert values[..i + 1][..i] == values[..i];
    }
    assert values[..|values|] == values;
  }

  /* ---- The declared model ---- */

  /**
   States, a prior over them, joint outcomes, for each state a distribution over the joint outcomes, and what
   actions cost.
   */
  datatype Model = Model(
    fits: seq<bool>, prior: seq<real>, joints: seq<seq<string>>, channel: seq<seq<real>>,
    outcomeIds: seq<seq<string>>, costs: seq<real>, unsafeAccept: real, unnecessaryReject: real)

  function Prior(m: Model): int -> real { i => if 0 <= i < |m.prior| then m.prior[i] else 0.0 }

  function Likelihood(m: Model, i: int): int -> real {
    j => if 0 <= i < |m.channel| && 0 <= j < |m.channel[i]| then m.channel[i][j] else 0.0
  }

  /**
   Unit masses, one row per state, one outcome per action in every joint outcome, a cost per action, positive
   losses.
   */
  ghost predicate Declared(m: Model) {
    && |m.prior| == |m.fits| == |m.channel|
    && (forall i | 0 <= i < |m.prior| :: m.prior[i] >= 0.0)
    && Sum(|m.prior|, Prior(m)) == 1.0
    && (forall i | 0 <= i < |m.channel| :: |m.channel[i]| == |m.joints| && Sum(|m.joints|, Likelihood(m, i)) == 1.0)
    && (forall i, j | 0 <= i < |m.channel| && 0 <= j < |m.channel[i]| :: m.channel[i][j] >= 0.0)
    && (forall j | 0 <= j < |m.joints| :: |m.joints[j]| == |m.outcomeIds|)
    && |m.costs| == |m.outcomeIds|
    && m.unsafeAccept > 0.0 && m.unnecessaryReject > 0.0
  }

  /* ---- Decisions ---- */

  datatype Decision = AcceptFit | RejectFit

  function Max(a: real, b: real): real { if a >= b then a else b }

  function Min(a: real, b: real): real { if a <= b then a else b }

  /** Accept only when rejecting is worse by more than the tolerance; otherwise reject. */
  function ChooseDecision(accept: real, reject: real): Decision {
    if reject - accept > TOLERANCE * Max(if accept < 0.0 then -accept else accept, if reject < 0.0 then -reject
      else reject)
    then AcceptFit else RejectFit
  }

  /** Accepting is chosen when its risk undercuts that of rejecting by more than a trillionth of it. */
  lemma AcceptsExactly(accept: real, reject: real)
    requires accept >= 0.0 && reject >= 0.0
    ensures ChooseDecision(accept, reject) == AcceptFit <==> accept < reject - 0.000000000001 * reject
  {
  }

  /** With ties taken exactly. */
  function ExactDecision(accept: real, reject: real): Decision { if reject > accept then AcceptFit else RejectFit }

  function LossOf(d: Decision, accept: real, reject: real): real { if d == AcceptFit then accept else reject }

  /** The loss a decision shows, and at most how far the tolerance takes it from the least. */
  lemma ChosenNearLeast(accept: real, reject: real)
    requires accept >= 0.0 && reject >= 0.0
    ensures var loss := LossOf(ChooseDecision(accept, reject), accept, reject);
      && Min(accept, reject) <= loss && loss * (1.0 - TOLERANCE) <= Min(accept, reject)
      && (loss > Min(accept, reject) <==> accept < reject && reject * (1.0 - TOLERANCE) <= accept)
    ensures LossOf(ExactDecision(accept, reject), accept, reject) == Min(accept, reject)
  {
  }

  /** A decision does not depend on the scale of its risks. */
  lemma ScaleFree(accept: real, reject: real, scale: real)
    requires accept >= 0.0 && reject >= 0.0 && scale > 0.0
    ensures ChooseDecision(Times(scale, accept), Times(scale, reject)) == ChooseDecision(accept, reject)
  {
    TimesPositive(scale, accept);
    TimesPositive(scale, reject);
    var gap := reject - accept - TOLERANCE * Max(accept, reject);
    assert Times(scale, reject) - Times(scale, accept) - TOLERANCE * Max(Times(scale, accept), Times(scale, reject))
      == Times(scale, gap) by {
      MaxScales(accept, reject, scale);
      TimesLaws(scale, reject, accept);
    }
    TimesPositive(scale, gap);
  }

  lemma MaxScales(a: real, b: real, scale: real)
    requires scale > 0.0
    ensures Max(Times(scale, a), Times(scale, b)) == Times(scale, Max(a, b))
    ensures Times(scale, TOLERANCE * Max(a, b)) == TOLERANCE * Times(scale, Max(a, b))
  {
    TimesPositive(scale, a - b);
    TimesPositive(scale, b - a);
    TimesLaws(scale, a, b);
    TimesLaws(scale, b, a);
  }

  /* ---- Branches: the joint outcomes that look alike through the selected actions ---- */

  datatype Group = Group(key: seq<string>, columns: seq<nat>)

  /** Every joint outcome says what every action shows. */
  predicate Shaped(m: Model, selected: seq<nat>) {
    (forall j | 0 <= j < |m.joints| :: |m.joints[j]| == |m.outcomeIds|)
    && forall a | a in selected :: a < |m.outcomeIds|
  }

  function KeyOf(m: Model, selected: seq<nat>, j: nat): seq<string>
    requires Shaped(m, selected) && j < |m.joints|
  {
    seq(|selected|, i requires 0 <= i < |selected| =>
      assert selected[i] in selected;
      m.joints[j][selected[i]])
  }

  /** The place of a key among the groups, or their number if it is new. */
  function IndexOf(gs: seq<Group>, key: seq<string>): (i: nat)
    ensures i <= |gs| && (i < |gs| ==> gs[i].key == key)
    ensures forall j | 0 <= j < i :: gs[j].key != key
  {
    if gs == [] || gs[0].key == key then 0 else 1 + IndexOf(gs[1..], key)
  }

  function AddTo(gs: seq<Group>, key: seq<string>, j: nat): seq<Group> {
    var i := IndexOf(gs, key);
    if i < |gs| then gs[i := Group(key, gs[i].columns + [j])] else gs + [Group(key, [j])]
  }

  function GroupsOf(m: Model, selected: seq<nat>, n: nat): seq<Group>
    requires Shaped(m, selected) && n <= |m.joints|
  {
    if n == 0 then [] else AddTo(GroupsOf(m, selected, n - 1), KeyOf(m, selected, n - 1), n - 1)
  }

  ghost predicate GroupsOk(m: Model, selected: seq<nat>, gs: seq<Group>, n: nat)
    requires Shaped(m, selected)
  {
    && n <= |m.joints|
    && (forall i, j | 0 <= i < j < |gs| :: gs[i].key != gs[j].key)
    && (forall i | 0 <= i < |gs| :: Alike(m, selected, gs[i], n))
  }

  /** All columns of a group show the group's key. */
  predicate Alike(m: Model, selected: seq<nat>, g: Group, n: nat)
    requires Shaped(m, selected) && n <= |m.joints|
  {
    forall j | j in g.columns :: j < n && KeyOf(m, selected, j) == g.key
  }

  lemma AddToOk(m: Model, selected: seq<nat>, gs: seq<Group>, j: nat)
    requires Shaped(m, selected) && j < |m.joints| && GroupsOk(m, selected, gs, j)
    ensures GroupsOk(m, selected, AddTo(gs, KeyOf(m, selected, j), j), j + 1)
  {
    hide KeyOf;
    var key := KeyOf(m, selected, j);
    var after, at := AddTo(gs, key, j), IndexOf(gs, key);
    forall i | 0 <= i < |after| ensures Alike(m, selected, after[i], j + 1) {
      if i < |gs| { assert Alike(m, selected, gs[i], j); }
    }
  }

  lemma {:induction false} GroupsAreOk(m: Model, selected: seq<nat>, n: nat)
    requires Shaped(m, selected) && n <= |m.joints|
    ensures GroupsOk(m, selected, GroupsOf(m, selected, n), n)
  {
    hide KeyOf, AddTo, IndexOf, Alike;
    if n > 0 {
      GroupsAreOk(m, selected, n - 1);
      AddToOk(m, selected, GroupsOf(m, selected, n - 1), n - 1);
    }
  }

  function ColumnSum(f: int -> real, columns: seq<nat>): real {
    if columns == [] then 0.0 else ColumnSum(f, columns[..|columns| - 1]) + f(columns[|columns| - 1])
  }

  /** The columns of all groups, summed group by group. */
  function GroupSum(f: int -> real, gs: seq<Group>): real {
    if gs == [] then 0.0 else GroupSum(f, gs[..|gs| - 1]) + ColumnSum(f, gs[|gs| - 1].columns)
  }

  lemma {:induction false} GroupSumUpdate(f: int -> real, gs: seq<Group>, i: nat, g: Group)
    requires i < |gs|
    ensures GroupSum(f, gs[i := g]) == GroupSum(f, gs) - ColumnSum(f, gs[i].columns) + ColumnSum(f, g.columns)
  {
    hide ColumnSum;
    var n := |gs| - 1;
    if i == n {
      assert gs[i := g][..n] == gs[..n];
    } else {
      assert gs[i := g][..n] == gs[..n][i := g];
      GroupSumUpdate(f, gs[..n], i, g);
    }
  }

  lemma ColumnSumLast(f: int -> real, columns: seq<nat>, j: nat)
    ensures ColumnSum(f, columns + [j]) == ColumnSum(f, columns) + f(j)
    ensures ColumnSum(f, [j]) == f(j)
  {
    assert (columns + [j])[..|columns|] == columns;
    assert [j][..0] == [];
  }

  /** Grouping loses nothing and counts nothing twice. */
  lemma {:induction false} GroupingKeepsSum(m: Model, selected: seq<nat>, n: nat, f: int -> real)
    requires Shaped(m, selected) && n <= |m.joints|
    ensures GroupSum(f, GroupsOf(m, selected, n)) == Sum(n, f)
  {
    hide KeyOf, AddTo;
    if n > 0 {
      GroupingKeepsSum(m, selected, n - 1, f);
      AddToSum(f, GroupsOf(m, selected, n - 1), KeyOf(m, selected, n - 1), n - 1);
    }
  }

  lemma AddToSum(f: int -> real, gs: seq<Group>, key: seq<string>, j: nat)
    ensures GroupSum(f, AddTo(gs, key, j)) == GroupSum(f, gs) + f(j)
  {
    hide ColumnSum, IndexOf;
    var i := IndexOf(gs, key);
    if i < |gs| {
      ColumnSumLast(f, gs[i].columns, j);
      GroupSumUpdate(f, gs, i, Group(key, gs[i].columns + [j]));
    } else {
      ColumnSumLast(f, [], j);
      assert (gs + [Group(key, [j])])[..|gs|] == gs;
    }
  }

  lemma {:induction false} ColumnSumScale(f: int -> real, g: int -> real, a: real, columns: seq<nat>)
    requires forall j | j in columns :: g(j) == Times(a, f(j))
    ensures ColumnSum(g, columns) == Times(a, ColumnSum(f, columns))
  {
    hide Times;
    TimesLaws(a, 0.0, 0.0);
    if columns != [] {
      var n := |columns| - 1;
      assert columns[n] in columns && forall j | j in columns[..n] :: j in columns;
      ColumnSumScale(f, g, a, columns[..n]);
      TimesLaws(a, ColumnSum(f, columns[..n]), f(columns[n]));
    }
  }

  lemma {:induction false} ColumnSumNonnegative(f: int -> real, columns: seq<nat>)
    requires forall j | j in columns :: f(j) >= 0.0
    ensures ColumnSum(f, columns) >= 0.0
  {
    if columns != [] {
      var n := |columns| - 1;
      assert columns[n] in columns && forall j | j in columns[..n] :: j in columns;
      ColumnSumNonnegative(f, columns[..n]);
    }
  }

  /* ---- Masses, risks and losses ---- */

  /** The joint probability of a state and a joint outcome. */
  function Joint(m: Model, i: int): int -> real { j => Times(Prior(m)(i), Likelihood(m, i)(j)) }

  /** The part of a joint outcome's probability that lies on fitting states, or on the others. */
  function MassAt(m: Model, fits: bool): int -> real {
    j => Sum(|m.prior|, i => if 0 <= i < |m.fits| && m.fits[i] == fits then Joint(m, i)(j) else 0.0)
  }

  function Mass(m: Model, fits: bool, columns: seq<nat>): real { ColumnSum(MassAt(m, fits), columns) }

  function AcceptRisk(m: Model, columns: seq<nat>): real { Times(m.unsafeAccept, Mass(m, false, columns)) }

  function RejectRisk(m: Model, columns: seq<nat>): real { Times(m.unnecessaryReject, Mass(m, true, columns)) }

  /** The loss of one branch under a rule for deciding, weighted by the branch's probability. */
  function BranchLoss(m: Model, choose: (real, real) -> Decision, columns: seq<nat>): real {
    var accept, reject := AcceptRisk(m, columns), RejectRisk(m, columns);
    LossOf(choose(accept, reject), accept, reject)
  }

  function ExpectedLoss(m: Model, choose: (real, real) -> Decision, gs: seq<Group>): real {
    if gs == [] then 0.0 else ExpectedLoss(m, choose, gs[..|gs| - 1]) + BranchLoss(m, choose, gs[|gs| - 1].columns)
  }

  lemma MassNonnegative(m: Model, fits: bool, columns: seq<nat>)
    requires Declared(m)
    ensures Mass(m, fits, columns) >= 0.0
  {
    forall j | j in columns ensures MassAt(m, fits)(j) >= 0.0 {
      var f := (i: int) => if 0 <= i < |m.fits| && m.fits[i] == fits then Joint(m, i)(j) else 0.0;
      forall i | 0 <= i < |m.prior| ensures f(i) >= 0.0 {
        JointNonnegative(m, i, j);
      }
      SumNonnegative(|m.prior|, f);
      assert MassAt(m, fits)(j) == Sum(|m.prior|, f);
    }
    ColumnSumNonnegative(MassAt(m, fits), columns);
  }

  lemma JointNonnegative(m: Model, i: int, j: int)
    requires Declared(m)
    ensures Joint(m, i)(j) >= 0.0
  {
    var p, l := Prior(m)(i), Likelihood(m, i)(j);
    assert p >= 0.0 && l >= 0.0;
    if p > 0.0 { TimesPositive(p, l); }
  }

  lemma RisksNonnegative(m: Model, columns: seq<nat>)
    requires Declared(m)
    ensures AcceptRisk(m, columns) >= 0.0 && RejectRisk(m, columns) >= 0.0
  {
    MassNonnegative(m, true, columns);
    MassNonnegative(m, false, columns);
    TimesPositive(m.unsafeAccept, Mass(m, false, columns));
    TimesPositive(m.unnecessaryReject, Mass(m, true, columns));
  }

  /* ---- Information never hurts, but for ties ---- */

  /** What a joint outcome adds to the loss when its group's decision is taken. */
  function Share(m: Model, choose: (real, real) -> Decision, selected: seq<nat>, gs: seq<Group>): int -> real
    requires Shaped(m, selected)
  {
    j => LossOf(DecisionAt(m, choose, selected, gs, j),
                Times(m.unsafeAccept, MassAt(m, false)(j)), Times(m.unnecessaryReject, MassAt(m, true)(j)))
  }

  function DecisionAt(m: Model, choose: (real, real) -> Decision, selected: seq<nat>, gs: seq<Group>, j: int): Decision
    requires Shaped(m, selected)
  {
    if 0 <= j < |m.joints| then DecisionFor(m, choose, gs, KeyOf(m, selected, j)) else RejectFit
  }

  function DecisionFor(m: Model, choose: (real, real) -> Decision, gs: seq<Group>, key: seq<string>): Decision {
    var i := IndexOf(gs, key);
    if i < |gs| then choose(AcceptRisk(m, gs[i].columns), RejectRisk(m, gs[i].columns)) else RejectFit
  }

  /** Over outcomes decided alike, the shares add up to that decision's risk. */
  lemma SharesOfOneDecision(m: Model, choose: (real, real) -> Decision, selected: seq<nat>, gs: seq<Group>,
                            columns: seq<nat>, d: Decision)
    requires Shaped(m, selected) && forall j | j in columns :: DecisionAt(m, choose, selected, gs, j) == d
    ensures ColumnSum(Share(m, choose, selected, gs), columns)
      == LossOf(d, AcceptRisk(m, columns), RejectRisk(m, columns))
  {
    hide DecisionAt, MassAt, Times, ColumnSum;
    var share := Share(m, choose, selected, gs);
    if d == AcceptFit {
      ColumnSumScale(MassAt(m, false), share, m.unsafeAccept, columns);
    } else {
      ColumnSumScale(MassAt(m, true), share, m.unnecessaryReject, columns);
    }
  }

  /** Group by group, the shares add up to the expected loss. */
  lemma {:induction false} SharesAreLoss(
    m: Model, choose: (real, real) -> Decision, selected: seq<nat>, gs: seq<Group>, n: nat, k: nat)
    requires Shaped(m, selected) && GroupsOk(m, selected, gs, n) && k <= |gs|
    ensures GroupSum(Share(m, choose, selected, gs), gs[..k]) == ExpectedLoss(m, choose, gs[..k])
  {
    hide KeyOf, AcceptRisk, RejectRisk, Share, ColumnSum;
    if k > 0 {
      SharesAreLoss(m, choose, selected, gs, n, k - 1);
      assert gs[..k][..k - 1] == gs[..k - 1];
      var columns := gs[k - 1].columns;
      var d := choose(AcceptRisk(m, columns), RejectRisk(m, columns));
      assert Alike(m, selected, gs[k - 1], n);
      forall j | j in columns ensures DecisionAt(m, choose, selected, gs, j) == d {
        assert KeyOf(m, selected, j) == gs[k - 1].key;
        assert IndexOf(gs, gs[k - 1].key) == k - 1;
      }
      SharesOfOneDecision(m, choose, selected, gs, columns, d);
    }
  }

  /** How close to the least possible a rule's loss is, as a share of it. */
  ghost predicate Near(choose: (real, real) -> Decision, slack: real) {
    forall accept, reject :: accept >= 0.0 && reject >= 0.0 ==>
      Times(1.0 - slack, LossOf(choose(accept, reject), accept, reject)) <= Min(accept, reject)
  }

  /** Group by group, a finer rule's loss against the shares of a coarser decision. */
  lemma {:induction false} FinerIsNoWorse(
    m: Model, choose: (real, real) -> Decision, slack: real, coarse: seq<nat>, cgs: seq<Group>,
    fine: seq<nat>, fgs: seq<Group>, n: nat, k: nat)
    requires Declared(m) && Shaped(m, coarse) && Shaped(m, fine) && GroupsOk(m, fine, fgs, n) && k <= |fgs|
    requires Near(choose, slack) && forall a | a in coarse :: a in fine
    ensures Times(1.0 - slack, ExpectedLoss(m, choose, fgs[..k])) <= GroupSum(Share(m, choose, coarse, cgs), fgs[..k])
  {
    hide KeyOf, AcceptRisk, RejectRisk, Share, ColumnSum, Declared, Times, DecisionAt;
    TimesLaws(1.0 - slack, 0.0, 0.0);
    if k > 0 {
      FinerIsNoWorse(m, choose, slack, coarse, cgs, fine, fgs, n, k - 1);
      assert fgs[..k][..k - 1] == fgs[..k - 1];
      var columns := fgs[k - 1].columns;
      RisksNonnegative(m, columns);
      var d := if columns == [] then RejectFit else DecisionAt(m, choose, coarse, cgs, columns[0]);
      assert Alike(m, fine, fgs[k - 1], n);
      forall j | j in columns ensures DecisionAt(m, choose, coarse, cgs, j) == d {
        assert columns[0] in columns;
        assert KeyOf(m, fine, j) == fgs[k - 1].key && KeyOf(m, fine, columns[0]) == fgs[k - 1].key;
        SameCoarseDecision(m, choose, coarse, cgs, fine, columns[0], j);
      }
      SharesOfOneDecision(m, choose, coarse, cgs, columns, d);
      TimesLaws(1.0 - slack, ExpectedLoss(m, choose, fgs[..k - 1]), BranchLoss(m, choose, columns));
    }
  }

  /** Outcomes alike through more actions are alike through fewer. */
  lemma SameCoarseDecision(m: Model, choose: (real, real) -> Decision, coarse: seq<nat>, cgs: seq<Group>,
                           fine: seq<nat>, i: nat, j: nat)
    requires Shaped(m, coarse) && Shaped(m, fine) && (forall a | a in coarse :: a in fine)
    requires i < |m.joints| && j < |m.joints| && KeyOf(m, fine, i) == KeyOf(m, fine, j)
    ensures DecisionAt(m, choose, coarse, cgs, i) == DecisionAt(m, choose, coarse, cgs, j)
  {
    var a, b := KeyOf(m, coarse, i), KeyOf(m, coarse, j);
    forall k | 0 <= k < |coarse| ensures a[k] == b[k] {
      assert coarse[k] in coarse;
      var l :| 0 <= l < |fine| && fine[l] == coarse[k];
      assert KeyOf(m, fine, i)[l] == KeyOf(m, fine, j)[l];
    }
    assert a == b;
  }

  lemma RulesAreNear()
    ensures Near(ChooseDecision, TOLERANCE) && Near(ExactDecision, 0.0)
  {
    forall accept: real, reject: real | accept >= 0.0 && reject >= 0.0
      ensures Times(1.0 - TOLERANCE, LossOf(ChooseDecision(accept, reject), accept, reject)) <= Min(accept, reject)
      ensures Times(1.0 - 0.0, LossOf(ExactDecision(accept, reject), accept, reject)) <= Min(accept, reject)
    {
      ChosenNearLeast(accept, reject);
    }
  }

  lemma MoreInformation(m: Model, choose: (real, real) -> Decision, slack: real, coarse: seq<nat>, fine: seq<nat>)
    requires Declared(m) && Shaped(m, coarse) && Shaped(m, fine) && (forall a | a in coarse :: a in fine)
    requires Near(choose, slack)
    ensures var n := |m.joints|;
      Times(1.0 - slack, ExpectedLoss(m, choose, GroupsOf(m, fine, n))) <= ExpectedLoss(m, choose,
        GroupsOf(m, coarse, n))
  {
    hide Declared, KeyOf, Share, Near, Times;
    var n := |m.joints|;
    var cgs, fgs := GroupsOf(m, coarse, n), GroupsOf(m, fine, n);
    GroupsAreOk(m, coarse, n);
    GroupsAreOk(m, fine, n);
    hide GroupsOf;
    SharesAreLoss(m, choose, coarse, cgs, n, |cgs|);
    FinerIsNoWorse(m, choose, slack, coarse, cgs, fine, fgs, n, |fgs|);
    assert cgs[..|cgs|] == cgs && fgs[..|fgs|] == fgs;
    GroupingKeepsSum(m, coarse, n, Share(m, choose, coarse, cgs));
    GroupingKeepsSum(m, fine, n, Share(m, choose, coarse, cgs));
  }

  /**
   Measuring more never raises the expected loss by more than the decision tolerance allows,
   and with ties taken exactly never raises it at all.
   */
  lemma InformationNeverHurtsBeyondTies(m: Model, coarse: seq<nat>, fine: seq<nat>)
    requires Declared(m) && Shaped(m, coarse) && Shaped(m, fine) && (forall a | a in coarse :: a in fine)
    ensures var n := |m.joints|;
      && (1.0 - TOLERANCE) * ExpectedLoss(m, ChooseDecision, GroupsOf(m, fine, n))
         <= ExpectedLoss(m, ChooseDecision, GroupsOf(m, coarse, n))
      && ExpectedLoss(m, ExactDecision, GroupsOf(m, fine, n)) <= ExpectedLoss(m, ExactDecision, GroupsOf(m, coarse, n))
  {
    hide Declared, ExpectedLoss, GroupsOf;
    RulesAreNear();
    MoreInformation(m, ChooseDecision, TOLERANCE, coarse, fine);
    MoreInformation(m, ExactDecision, 0.0, coarse, fine);
  }
}
