/**
 A run of the dossier ledger that ends with a standing row its artifact no longer earns (src/db/discoveryLedger.ts,
 src/db/dossierLedger.ts): the record an input added late names had been corrected before the assessment.
 */
module DossierLateInput {
  import opened Basics
  import opened Ancestry
  import opened DossierTables
  import opened DossierLedger
  import opened DossierGrowth
  import opened DossierEvidence
  import opened DossierRuns
  import opened DossierPromises

  const RIGHTS := {DELIVERY_RIGHT}
  const READ := Input("artifact", Source("read"))
  const LATE := Input("artifact", Source("corrected"))
  const CORRECTED := Retraction("retraction", "corrected", Correction, 5)
  const ARTIFACT := Artifact("run", "subject", "claim", 1, Some(10), RIGHTS)
  const ASSESSED := Coverage("facet", Thin, Present, 1, 1, 0, 0, 0, 1, 1, ["artifact"], 10)
  const CITED := Evidence("coverage", "artifact", "run", Present)

  /** A dossier and its facet, an artifact that read one record, and a correction of another record. */
  const PREPARED: seq<Row> := [
    SpecRow("dossier", Spec("recipient")), FacetRow("facet", Facet("dossier", "ROUTES")),
    ArtifactRow("artifact", ARTIFACT), InputRow(READ, 0, RIGHTS), RetractionRow(CORRECTED)]

  /** The facet is assessed on the artifact, after the correction. */
  const ASSESSMENT: seq<Row> := [CoverageRow("coverage", ASSESSED), EvidenceRow("evidence", CITED)]

  /** The artifact is said to have read the corrected record too. */
  const ADDED: seq<Row> := [InputRow(LATE, 0, RIGHTS)]

  /* The tables after each row. */

  const SPECIFIED_TABLES := EMPTY.(specs := map["dossier" := Spec("recipient")])
  const ASKED_TABLES := SPECIFIED_TABLES.(facets := map["facet" := Facet("dossier", "ROUTES")])
  const COMPUTED_TABLES := ASKED_TABLES.(artifacts := map["artifact" := ARTIFACT])
  const READ_TABLES := COMPUTED_TABLES.(inputs := {READ})
  const PREPARED_TABLES := READ_TABLES.(retractions := {CORRECTED})
  const COVERED_TABLES := PREPARED_TABLES.(coverage := map["coverage" := ASSESSED])
  const STANDING_TABLES := COVERED_TABLES.(evidence := map["evidence" := CITED])

  lemma InsertFirst(db: Db, row: Row, rest: seq<Row>)
    requires FreshKey(db, row) && Allowed(db, row)
    ensures InsertAll(db, [row] + rest) == InsertAll(Add(db, row), rest)
  {
    assert ([row] + rest)[1..] == rest;
  }

  lemma SpecIn()
    ensures FreshKey(EMPTY, PREPARED[0]) && Allowed(EMPTY, PREPARED[0]) && Add(EMPTY, PREPARED[0]) == SPECIFIED_TABLES
  {
  }

  lemma FacetIn()
    ensures FreshKey(SPECIFIED_TABLES, PREPARED[1]) && Allowed(SPECIFIED_TABLES, PREPARED[1])
    ensures Add(SPECIFIED_TABLES, PREPARED[1]) == ASKED_TABLES
  {
    assert "ROUTES" == FACETS[4];
  }

  lemma ArtifactIn()
    ensures FreshKey(ASKED_TABLES, PREPARED[2]) && Allowed(ASKED_TABLES, PREPARED[2])
    ensures Add(ASKED_TABLES, PREPARED[2]) == COMPUTED_TABLES
  {
  }

  lemma InputIn()
    ensures FreshKey(COMPUTED_TABLES, PREPARED[3]) && Allowed(COMPUTED_TABLES, PREPARED[3])
    ensures Add(COMPUTED_TABLES, PREPARED[3]) == READ_TABLES
  {
  }

  lemma RetractionIn()
    ensures FreshKey(READ_TABLES, PREPARED[4]) && Allowed(READ_TABLES, PREPARED[4])
    ensures Add(READ_TABLES, PREPARED[4]) == PREPARED_TABLES
  {
  }

  lemma PreparedRows()
    ensures InsertAll(EMPTY, PREPARED) == Some(PREPARED_TABLES)
  {
    SpecIn();
    FacetIn();
    ArtifactIn();
    InputIn();
    RetractionIn();
    hide FreshKey, Allowed, Add;
    var rows := PREPARED;
    InsertFirst(EMPTY, rows[0], rows[1..]);
    InsertFirst(SPECIFIED_TABLES, rows[1], rows[2..]);
    InsertFirst(ASKED_TABLES, rows[2], rows[3..]);
    InsertFirst(COMPUTED_TABLES, rows[3], rows[4..]);
    InsertFirst(READ_TABLES, rows[4], []);
    assert rows == [rows[0]] + rows[1..] && rows[1..] == [rows[1]] + rows[2..] && rows[2..] == [rows[2]] + rows[3..];
    assert rows[3..] == [rows[3]] + rows[4..] && rows[4..] == [rows[4]] + [];
    assert InsertAll(PREPARED_TABLES, []) == Some(PREPARED_TABLES);
    hide InsertAll;
  }

  lemma Prepares()
    ensures Commits(EMPTY, PREPARED) && After(EMPTY, PREPARED) == PREPARED_TABLES
  {
    PreparedRows();
    hide InsertAll;
    assert READ in PREPARED_TABLES.inputs && ReadsSomething(PREPARED_TABLES, "artifact");
    forall row | row in PREPARED ensures Deferred(PREPARED_TABLES, row) {
      if row.RetractionRow? { assert PREPARED_TABLES.evidence == map[]; }
    }
  }

  /** The artifact rests on what it read, and on nothing else yet. */
  lemma NotYet()
    ensures !RestsOn({READ}, "artifact", "corrected")
  {
    RestsOnStep({READ}, "artifact", "corrected");
    assert Source("read") != Source("corrected") by { assert "read"[0] != "corrected"[0]; }
  }

  lemma CitedIsEarned()
    ensures Earned(STANDING_TABLES, CITED)
  {
    NotYet();
    assert DELIVERY_RIGHT in RIGHTS;
  }

  lemma Counted()
    ensures CoverageMatches(STANDING_TABLES, "coverage")
  {
    assert EvidenceOf(STANDING_TABLES, "coverage") == {"evidence"};
    assert ListedArtifacts(STANDING_TABLES, "coverage") == {"artifact"} == set a | a in ASSESSED.artifactIds;
    assert (set k | k in EvidenceOf(STANDING_TABLES, "coverage") && STANDING_TABLES.evidence[k].assessment == Present)
      == {"evidence"};
    assert (set k | k in EvidenceOf(STANDING_TABLES, "coverage") && STANDING_TABLES.evidence[k].assessment == Stale)
      == {};
    assert (set k | k in EvidenceOf(STANDING_TABLES, "coverage")
      && STANDING_TABLES.evidence[k].assessment == Conflicting) == {};
    assert (set k | k in EvidenceOf(STANDING_TABLES, "coverage")
      && STANDING_TABLES.evidence[k].assessment == Disallowed) == {};
    assert (set k | k in EvidenceOf(STANDING_TABLES, "coverage") :: STANDING_TABLES.evidence[k].runId) == {"run"};
    assert (set k | k in EvidenceOf(STANDING_TABLES, "coverage") && STANDING_TABLES.evidence[k].assessment == Present ::
      STANDING_TABLES.evidence[k].runId) == {"run"};
  }

  lemma ChecksPass()
    ensures CoverageChecks(ASSESSED)
  {
  }

  lemma NotBehind()
    ensures "facet" in PREPARED_TABLES.facets && !AssessedBehind(PREPARED_TABLES, ASSESSED)
  {
    hide CoverageChecks;
  }

  lemma CoverageIn()
    ensures FreshKey(PREPARED_TABLES, ASSESSMENT[0]) && Allowed(PREPARED_TABLES, ASSESSMENT[0])
    ensures Add(PREPARED_TABLES, ASSESSMENT[0]) == COVERED_TABLES
  {
    hide CoverageChecks, AssessedBehind;
    ChecksPass();
    NotBehind();
  }

  lemma EvidenceIn()
    ensures FreshKey(COVERED_TABLES, ASSESSMENT[1]) && Allowed(COVERED_TABLES, ASSESSMENT[1])
    ensures Add(COVERED_TABLES, ASSESSMENT[1]) == STANDING_TABLES
  {
  }

  lemma AssessedRows()
    ensures InsertAll(PREPARED_TABLES, ASSESSMENT) == Some(STANDING_TABLES)
  {
    hide FreshKey, Allowed, Add;
    CoverageIn();
    EvidenceIn();
    InsertFirst(PREPARED_TABLES, ASSESSMENT[0], [ASSESSMENT[1]]);
    InsertFirst(COVERED_TABLES, ASSESSMENT[1], []);
    assert [ASSESSMENT[1]] == [ASSESSMENT[1]] + [] && ASSESSMENT == [ASSESSMENT[0]] + [ASSESSMENT[1]];
  }

  lemma Assesses()
    ensures Commits(PREPARED_TABLES, ASSESSMENT) && After(PREPARED_TABLES, ASSESSMENT) == STANDING_TABLES
  {
    AssessedRows();
    CitedIsEarned();
    Counted();
    hide Earned, CoverageMatches, InsertAll;
  }

  /** Three committed transactions, after which a standing row says PRESENT of an artifact that earns CONFLICTING. */
  lemma LateInputRun()
    ensures Run([PREPARED, ASSESSMENT]) == STANDING_TABLES && Inv(STANDING_TABLES)
    ensures Commits(STANDING_TABLES, ADDED) && !EvidenceStands(Run([PREPARED, ASSESSMENT, ADDED]))
  {
    Prepares();
    Assesses();
    hide After, Commits, Inv, InsertAll;
    var one, two, three := [PREPARED], [PREPARED, ASSESSMENT], [PREPARED, ASSESSMENT, ADDED];
    assert one[..0] == [] && two[..1] == one && three[..2] == two;
    assert Run(one) == PREPARED_TABLES;
    assert Run(two) == STANDING_TABLES;
    FrozenRunsStand(two) by {
      assert AllFrozen([]);
      assert AllFrozen(one) by { NothingCited(); }
      assert AllFrozen(two) by { NoInputs(); }
    }
    LateInputUnsettlesEvidence(STANDING_TABLES, "evidence", CORRECTED, 0, RIGHTS) by {
      assert LATE.read != READ.read by { assert "read"[0] != "corrected"[0]; }
    }
  }

  lemma NothingCited()
    ensures Frozen(EMPTY, PREPARED)
  {
  }

  lemma NoInputs()
    ensures Frozen(PREPARED_TABLES, ASSESSMENT)
  {
  }
}
