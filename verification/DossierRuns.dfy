/**
 Runs of transactions over the dossier ledger, and what every run keeps.
 */
module DossierRuns {
  import opened DossierTables
  import opened DossierLedger
  import opened DossierGrowth
  import opened DossierEvidence
  import opened DossierReleases

  /** Whatever a transaction inserts, the books stay in order, and rows are only added. */
  lemma TransactionKeeps(db: Db, rows: seq<Row>)
    requires Books(db)
    ensures Books(After(db, rows)) && Grew(db, After(db, rows))
  {
    hide Keyed, Priced, InputsEarlier, UniqueRows, CoverageStands, EstimatesStand, ReleasesStand, ConclusionsRest,
      Grew, Explained, NotBackdated, InsertAll, Deferred;
    if Commits(db, rows) {
      var db' := InsertAll(db, rows).value;
      InsertAllKeeps(db, rows);
      CoverageKept(db, db', rows);
      EstimatesKept(db, db', rows);
      ReleasesKept(db, db', rows);
      ConclusionsKept(db, db', rows);
    } else {
      Unmoved(db, rows);
    }
  }

  /** The state after a run of attempted transactions. */
  ghost function Run(transactions: seq<seq<Row>>): Db {
    if transactions == [] then EMPTY
    else After(Run(transactions[..|transactions| - 1]), transactions[|transactions| - 1])
  }

  /** Every committed state, over every run: coverage, estimates, releases and conclusions all hold. */
  lemma {:induction false} EveryRunKeeps(transactions: seq<seq<Row>>)
    ensures Books(Run(transactions))
  {
    if transactions != [] {
      EveryRunKeeps(transactions[..|transactions| - 1]);
      TransactionKeeps(Run(transactions[..|transactions| - 1]), transactions[|transactions| - 1]);
    }
  }

  /** No transaction of the run commits inputs that overtake a row standing before it. */
  ghost predicate NothingOvertakes(transactions: seq<seq<Row>>) {
    transactions == [] || (
      var before := Run(transactions[..|transactions| - 1]);
      var rows := transactions[|transactions| - 1];
      NothingOvertakes(transactions[..|transactions| - 1]) && (Commits(before, rows) ==> !Overtakes(before, rows)))
  }

  ghost predicate StandsThroughout(transactions: seq<seq<Row>>) {
    forall n: nat | n <= |transactions| :: EvidenceStands(Run(transactions[..n]))
  }

  /**
   Over every run: standing evidence is, in every state, what its artifacts earn exactly when no committed inputs
   overtake it.
   */
  lemma {:induction false} EvidenceStandsOverRuns(transactions: seq<seq<Row>>)
    ensures StandsThroughout(transactions) <==> NothingOvertakes(transactions)
  {
    hide Books, EvidenceStands, After, Overtakes;
    if transactions == [] {
      assert transactions[..0] == [];
      EmptyStands();
    } else {
      var init, rows := transactions[..|transactions| - 1], transactions[|transactions| - 1];
      EvidenceStandsOverRuns(init);
      PrefixStands(transactions);
      EveryRunKeeps(init);
      if StandsThroughout(init) {
        assert init[..|init|] == init;
        AttemptStands(Run(init), rows);
      }
    }
  }

  lemma EmptyStands()
    ensures EvidenceStands(EMPTY)
  {
  }

  /** A run stands throughout when all but its last attempt do and its last state does. */
  lemma PrefixStands(transactions: seq<seq<Row>>)
    requires transactions != []
    ensures StandsThroughout(transactions) <==>
      StandsThroughout(transactions[..|transactions| - 1]) && EvidenceStands(Run(transactions))
  {
    hide EvidenceStands, Run;
    var init := transactions[..|transactions| - 1];
    assert forall n: nat | n <= |init| :: init[..n] == transactions[..n];
    assert transactions[..|transactions|] == transactions;
    if StandsThroughout(transactions) {
      assert EvidenceStands(Run(transactions[..|transactions|]));
      forall n: nat | n <= |init| ensures EvidenceStands(Run(init[..n])) {
        assert EvidenceStands(Run(transactions[..n]));
      }
    }
    if StandsThroughout(init) && EvidenceStands(Run(transactions)) {
      forall n: nat | n <= |transactions| ensures EvidenceStands(Run(transactions[..n])) {
        if n <= |init| { assert EvidenceStands(Run(init[..n])); }
      }
    }
  }

  lemma AttemptStands(db: Db, rows: seq<Row>)
    requires Books(db) && EvidenceStands(db)
    ensures EvidenceStands(After(db, rows)) <==> (Commits(db, rows) ==> !Overtakes(db, rows))
  {
    hide Books, EvidenceStands, Overtakes;
    if Commits(db, rows) { EvidenceStandsExactly(db, rows); }
  }

  ghost predicate AllFrozen(transactions: seq<seq<Row>>) {
    transactions == [] || (
      && AllFrozen(transactions[..|transactions| - 1])
      && Frozen(Run(transactions[..|transactions| - 1]), transactions[|transactions| - 1]))
  }

  /** Over every run that leaves cited ancestries alone, every standing row is what its artifact earns. */
  lemma {:induction false} FrozenRunsStand(transactions: seq<seq<Row>>)
    requires AllFrozen(transactions)
    ensures Inv(Run(transactions))
  {
    hide Books, EvidenceStands, After, Overtakes, Frozen;
    EveryRunKeeps(transactions);
    if transactions == [] {
      EmptyStands();
    } else {
      var init, rows := transactions[..|transactions| - 1], transactions[|transactions| - 1];
      FrozenRunsStand(init);
      FrozenOvertakesNothing(Run(init), rows);
      AttemptStands(Run(init), rows);
    }
  }
}
