/**
 When information seems to hurt (src/compute/clearance-voi.ts): conservative ties, and how far they go.
 */
module ClearanceTies {
  import opened RealSums
  import opened Ordering
  import opened ClearanceFit
  import opened Clearance
  import opened ClearanceEvaluation

  /** A branch rejected although accepting is less risky, the difference lying within the tolerance. */
  predicate ConservativeTie(m: Model, columns: seq<nat>) {
    var accept, reject := AcceptRisk(m, columns), RejectRisk(m, columns);
    accept < reject && (1.0 - TOLERANCE) * reject <= accept
  }

  lemma {:induction false} TiesAreTheDifference(m: Model, gs: seq<Group>)
    requires Declared(m)
    ensures ExpectedLoss(m, ChooseDecision, gs) >= ExpectedLoss(m, ExactDecision, gs)
    ensures ExpectedLoss(m, ChooseDecision, gs) > ExpectedLoss(m, ExactDecision, gs)
      <==> exists i | 0 <= i < |gs| :: ConservativeTie(m, gs[i].columns)
  {
    hide Declared, AcceptRisk, RejectRisk, ChooseDecision, ExactDecision;
    if gs != [] {
      var n := |gs| - 1;
      TiesAreTheDifference(m, gs[..n]);
      RisksNonnegative(m, gs[n].columns);
      ChosenNearLeast(AcceptRisk(m, gs[n].columns), RejectRisk(m, gs[n].columns));
      assert forall i | 0 <= i < n :: gs[..n][i] == gs[i];
    }
  }

  /** Measuring more raises the expected loss only where it leaves some branch in a conservative tie. */
  lemma OnlyTiesHurt(m: Model, coarse: seq<nat>, fine: seq<nat>)
    requires Declared(m) && Shaped(m, coarse) && Shaped(m, fine) && (forall a | a in coarse :: a in fine)
    requires var n := |m.joints|;
      ExpectedLoss(m, ChooseDecision, GroupsOf(m, fine, n)) > ExpectedLoss(m, ChooseDecision, GroupsOf(m, coarse, n))
    ensures exists i | 0 <= i < |GroupsOf(m, fine, |m.joints|)| ::
      ConservativeTie(m, GroupsOf(m, fine, |m.joints|)[i].columns)
  {
    hide Declared, ExpectedLoss, GroupsOf, ConservativeTie;
    InformationNeverHurtsBeyondTies(m, coarse, fine);
    TiesAreTheDifference(m, GroupsOf(m, coarse, |m.joints|));
    TiesAreTheDifference(m, GroupsOf(m, fine, |m.joints|));
  }

  /* ---- An experiment whose measurement is refused ---- */

  /** A number that decimal text can state. */
  ghost predicate Stated(x: real) { exists coefficient: int, digits: nat :: Reads(x, coefficient, digits) }

  predicate Reads(x: real, coefficient: int, digits: nat) { x * Ten(digits) as real == coefficient as real }

  /** What the parser of experiments asks for besides a declared model: sizes, bounds, bindings and decimal numbers. */
  ghost predicate Receivable(m: Model) {
    && Declared(m)
    && 2 <= |m.prior| <= 16 && 1 <= |m.outcomeIds| <= 4 && 1 <= |m.joints| <= 64 && Distinct(m.joints)
    && (forall a | 0 <= a < |m.outcomeIds| :: 2 <= |m.outcomeIds[a]| <= 4 && Distinct(m.outcomeIds[a]))
    && (forall j, a | 0 <= j < |m.joints| && 0 <= a < |m.outcomeIds| ::
         a < |m.joints[j]| && m.joints[j][a] in m.outcomeIds[a])
    && (forall x | x in m.prior :: 0.0 <= x <= 1.0 && Stated(x))
    && (forall row, x | row in m.channel && x in row :: 0.0 <= x <= 1.0 && Stated(x))
    && (forall x | x in m.costs :: 0.0 <= x <= 1000000.0 && Stated(x))
    && (forall x | x in [m.unsafeAccept, m.unnecessaryReject] :: 0.000000001 <= x <= 1000000.0 && Stated(x))
  }

  const LIKELY := 0.50000000000025
  const UNLIKELY := 0.49999999999975
  const REJECT_LOSS := 20.00000000001

  /** Two equally likely states, one action, one outcome that leaves a tie at the very edge of the tolerance. */
  function EdgeOfTie(): Model {
    Model([true, false], [0.5, 0.5], [["a"], ["b"]], [[LIKELY, UNLIKELY], [1.0, 0.0]], [["a", "b"]], [0.0], 10.0,
      REJECT_LOSS)
  }

  lemma {:induction false} SumTwo(f: int -> real)
    ensures Sum(2, f) == f(0) + f(1)
  {
    assert Sum(1, f) == Sum(0, f) + f(0);
  }

  lemma EdgeMasses(fits: bool)
    ensures var m := EdgeOfTie();
      && MassAt(m, fits)(0) == (if fits then 0.250000000000125 else 0.5)
      && MassAt(m, fits)(1) == (if fits then 0.249999999999875 else 0.0)
  {
    var m := EdgeOfTie();
    var f := (i: int) => if 0 <= i < |m.fits| && m.fits[i] == fits then Joint(m, i)(0) else 0.0;
    var g := (i: int) => if 0 <= i < |m.fits| && m.fits[i] == fits then Joint(m, i)(1) else 0.0;
    SumTwo(f);
    SumTwo(g);
    assert Prior(m)(0) == 0.5 && Prior(m)(1) == 0.5;
    assert Likelihood(m, 0)(0) == LIKELY && Likelihood(m, 0)(1) == UNLIKELY;
    assert Likelihood(m, 1)(0) == 1.0 && Likelihood(m, 1)(1) == 0.0;
    assert Times(0.5, LIKELY) == 0.250000000000125 && Times(0.5, UNLIKELY) == 0.249999999999875;
    assert Times(0.5, 1.0) == 0.5 && Times(0.5, 0.0) == 0.0;
    assert Joint(m, 0)(0) == 0.250000000000125 && Joint(m, 0)(1) == 0.249999999999875;
    assert Joint(m, 1)(0) == 0.5 && Joint(m, 1)(1) == 0.0;
    assert MassAt(m, fits)(0) == Sum(2, f) && MassAt(m, fits)(1) == Sum(2, g);
  }

  lemma EdgeDeclared()
    ensures Declared(EdgeOfTie()) && Shaped(EdgeOfTie(), [0])
  {
    var m := EdgeOfTie();
    SumTwo(Prior(m));
    SumTwo(Likelihood(m, 0));
    SumTwo(Likelihood(m, 1));
    assert Prior(m)(0) == 0.5 && Prior(m)(1) == 0.5;
    forall i | 0 <= i < 2 ensures |m.channel[i]| == 2 && Sum(2, Likelihood(m, i)) == 1.0 {
      if i == 0 {
        assert Likelihood(m, 0)(0) == LIKELY && Likelihood(m, 0)(1) == UNLIKELY;
      } else {
        assert Likelihood(m, 1)(0) == 1.0 && Likelihood(m, 1)(1) == 0.0;
      }
    }
  }

  lemma EdgeStated()
    ensures Stated(0.5) && Stated(LIKELY) && Stated(UNLIKELY) && Stated(1.0) && Stated(0.0) && Stated(10.0)
      && Stated(REJECT_LOSS)
  {
    TenDigits();
    hide Ten;
    assert Reads(0.5, 5, 1) && Reads(LIKELY, 50000000000025, 14) && Reads(UNLIKELY, 49999999999975, 14);
    assert Reads(1.0, 1, 0) && Reads(0.0, 0, 0) && Reads(10.0, 10, 0) && Reads(REJECT_LOSS, 2000000000001, 11);
  }

  lemma TenDigits()
    ensures Ten(0) == 1 && Ten(1) == 10 && Ten(11) == 100000000000 && Ten(14) == 100000000000000
  {
    assert Ten(4) == 10000;
    assert Ten(8) == 10000 * Ten(4);
    assert Ten(11) == 1000 * Ten(8);
  }

  lemma EdgeReceivable()
    ensures Receivable(EdgeOfTie())
  {
    hide Declared, Stated;
    EdgeDeclared();
    EdgeStated();
    var m := EdgeOfTie();
    assert m.joints[0][0] == "a" && m.joints[1][0] == "b" && "a"[0] != "b"[0];
    assert m.channel[0] == [LIKELY, UNLIKELY] && m.channel[1] == [1.0, 0.0];
  }

  lemma EdgeGroups()
    requires Shaped(EdgeOfTie(), [0])
    ensures GroupsOf(EdgeOfTie(), [0], 2) == [Group(["a"], [0]), Group(["b"], [1])]
  {
    var m := EdgeOfTie();
    assert KeyOf(m, [0], 0) == ["a"] && KeyOf(m, [0], 1) == ["b"];
    assert ["a"][0] != ["b"][0];
    assert GroupsOf(m, [0], 1) == [Group(["a"], [0])];
  }

  lemma EdgeRisks()
    ensures var m := EdgeOfTie();
      && AcceptRisk(m, [0]) == 5.0 && RejectRisk(m, [0]) == 5.00000000000500000000000125
      && AcceptRisk(m, [1]) == 0.0 && RejectRisk(m, [1]) == 4.99999999999999999999999875
  {
    hide MassAt;
    var m := EdgeOfTie();
    EdgeMasses(true);
    EdgeMasses(false);
    ColumnSumLast(MassAt(m, true), [], 0);
    ColumnSumLast(MassAt(m, true), [], 1);
    ColumnSumLast(MassAt(m, false), [], 0);
    ColumnSumLast(MassAt(m, false), [], 1);
  }

  /**
   In exact arithmetic the refusal for a negative value of information can be met by an experiment the parser
   receives: at a tie on the edge of the tolerance, measuring loses more than the tolerance forgives.
   */
  lemma NegativeValueIsReachable()
    ensures var m := EdgeOfTie();
      && Receivable(m) && Shaped(m, [0]) && |m.prior| == |m.fits|
      && Refusable(m, GroupsOf(m, [0], |m.joints|))
  {
    EdgeDeclared();
    EdgeReceivable();
    EdgeGroups();
    EdgePrior();
    EdgeExcess();
    assert |EdgeOfTie().joints| == 2 && |EdgeOfTie().prior| == |EdgeOfTie().fits|;
    hide Declared, GroupsOf, RejectedExcess, Receivable, EdgeOfTie, Shaped, CurrentDecision, PriorAcceptRisk;
  }

  lemma EdgeExcess()
    ensures RejectedExcess(EdgeOfTie(), [Group(["a"], [0]), Group(["b"], [1])]) == 0.00000000000500000000000125
  {
    EdgeRisks();
    hide AcceptRisk, RejectRisk, EdgeOfTie;
    var m, g, h := EdgeOfTie(), Group(["a"], [0]), Group(["b"], [1]);
    assert [g, h][..1] == [g] && [g][..0] == [];
    assert RejectedExcess(m, []) == 0.0;
    assert RejectedExcess(m, [g]) == RejectedExcess(m, []) + (RejectRisk(m, [0]) - AcceptRisk(m, [0]));
  }

  lemma EdgePrior()
    ensures var m := EdgeOfTie(); |m.prior| == |m.fits| && CurrentDecision(m) == AcceptFit && PriorAcceptRisk(m) == 5.0
  {
    var m := EdgeOfTie();
    var good := (i: int) => if i == 0 then 0.5 else 0.0;
    var bad := (i: int) => if i == 1 then 0.5 else 0.0;
    ChosenIsSum(m.prior, m.fits, true, good);
    ChosenIsSum(m.prior, m.fits, false, bad);
    SumTwo(good);
    SumTwo(bad);
    assert Times(10.0, 0.5) == 5.0 && Times(REJECT_LOSS, 0.5) == 10.000000000005;
  }
}
