/**
 A run of the dossier ledger that ends with a release (src/db/dossierLedger.ts): assessed, estimated, quoted, built,
 and concluded upon, every transaction committed.
 */
module DossierReleaseRun {
  import opened Basics
  import opened Ancestry
  import opened DossierTables
  import opened DossierLedger
  import opened DossierGrowth
  import opened DossierEvidence
  import opened DossierRuns
  import opened DossierPromises
  import opened DossierLateInput

  const COUNT := Estimate("dossier", 2, [Quoted("ROUTES", Thin, 2)], 11)
  const PRICE := Policy(100)
  const QUOTE := Quotation("dossier", "policy", 100, "estimate", 2, 11, 200, 12)
  const BUILD := Release("dossier", "recipient", 1, "quotation", 12, 13, 14)
  const NAMED := Naming("release", "coverage")
  const CLAIM := Conclusion("release", "ROUTES", "artifact")

  /** The facet is counted, the count is priced, and what is built names the assessment and concludes from it. */
  const ESTIMATED: seq<Row> := [EstimateRow("estimate", COUNT)]
  const PRICED: seq<Row> := [PolicyRow("policy", PRICE), QuotationRow("quotation", QUOTE)]
  const RELEASED: seq<Row> := [ReleaseRow("release", BUILD), NamingRow(NAMED), ConclusionRow("conclusion", CLAIM)]

  /* The tables after each row. */

  const ESTIMATED_TABLES := STANDING_TABLES.(estimates := map["estimate" := COUNT])
  const APPROVED_TABLES := ESTIMATED_TABLES.(policies := map["policy" := PRICE])
  const QUOTED_TABLES := APPROVED_TABLES.(quotations := map["quotation" := QUOTE])
  const BUILT_TABLES := QUOTED_TABLES.(releases := map["release" := BUILD])
  const NAMED_TABLES := BUILT_TABLES.(namings := {NAMED})
  const RELEASED_TABLES := NAMED_TABLES.(conclusions := map["conclusion" := CLAIM])

  lemma EstimateIn()
    ensures FreshKey(STANDING_TABLES, ESTIMATED[0]) && Allowed(STANDING_TABLES, ESTIMATED[0])
    ensures Add(STANDING_TABLES, ESTIMATED[0]) == ESTIMATED_TABLES
  {
  }

  lemma PolicyIn()
    ensures FreshKey(ESTIMATED_TABLES, PRICED[0]) && Allowed(ESTIMATED_TABLES, PRICED[0])
    ensures Add(ESTIMATED_TABLES, PRICED[0]) == APPROVED_TABLES
  {
  }

  lemma QuotationIn()
    ensures FreshKey(APPROVED_TABLES, PRICED[1]) && Allowed(APPROVED_TABLES, PRICED[1])
    ensures Add(APPROVED_TABLES, PRICED[1]) == QUOTED_TABLES
  {
  }

  lemma ReleaseIn()
    ensures FreshKey(QUOTED_TABLES, RELEASED[0]) && Allowed(QUOTED_TABLES, RELEASED[0])
    ensures Add(QUOTED_TABLES, RELEASED[0]) == BUILT_TABLES
  {
  }

  lemma NamingFits(db: Db)
    requires NAMED !in db.namings && "release" in db.releases && "coverage" in db.coverage
    ensures FreshKey(db, RELEASED[1]) && Allowed(db, RELEASED[1])
    ensures Add(db, RELEASED[1]) == db.(namings := db.namings + {NAMED})
  {
  }

  lemma NamingIn()
    ensures FreshKey(BUILT_TABLES, RELEASED[1]) && Allowed(BUILT_TABLES, RELEASED[1])
    ensures Add(BUILT_TABLES, RELEASED[1]) == NAMED_TABLES
  {
    hide FreshKey, Allowed, Add;
    assert BUILT_TABLES.namings == {};
    NamingFits(BUILT_TABLES);
    assert {} + {NAMED} == {NAMED};
  }

  lemma ConclusionIn()
    ensures FreshKey(NAMED_TABLES, RELEASED[2]) && Allowed(NAMED_TABLES, RELEASED[2])
    ensures Add(NAMED_TABLES, RELEASED[2]) == RELEASED_TABLES
  {
    assert "ROUTES" == FACETS[4];
  }

  lemma EstimatedRows()
    ensures InsertAll(STANDING_TABLES, ESTIMATED) == Some(ESTIMATED_TABLES)
  {
    hide FreshKey, Allowed, Add, InsertAll, STANDING_TABLES, ESTIMATED_TABLES;
    EstimateIn();
    InsertFirst(STANDING_TABLES, ESTIMATED[0], []);
    NothingMore(ESTIMATED_TABLES);
    assert ESTIMATED == [ESTIMATED[0]] + [];
  }

  lemma PricedRows()
    ensures InsertAll(ESTIMATED_TABLES, PRICED) == Some(QUOTED_TABLES)
  {
    hide FreshKey, Allowed, Add, InsertAll, ESTIMATED_TABLES, APPROVED_TABLES, QUOTED_TABLES;
    PolicyIn();
    QuotationIn();
    InsertFirst(ESTIMATED_TABLES, PRICED[0], [PRICED[1]]);
    InsertFirst(APPROVED_TABLES, PRICED[1], []);
    NothingMore(QUOTED_TABLES);
    assert PRICED == [PRICED[0]] + [PRICED[1]] && [PRICED[1]] == [PRICED[1]] + [];
  }

  lemma ReleasedRows()
    ensures InsertAll(QUOTED_TABLES, RELEASED) == Some(RELEASED_TABLES)
  {
    hide FreshKey, Allowed, Add, InsertAll, QUOTED_TABLES, BUILT_TABLES, NAMED_TABLES, RELEASED_TABLES;
    ReleaseIn();
    NamingIn();
    ConclusionIn();
    InsertFirst(QUOTED_TABLES, RELEASED[0], [RELEASED[1], RELEASED[2]]);
    InsertFirst(BUILT_TABLES, RELEASED[1], [RELEASED[2]]);
    InsertFirst(NAMED_TABLES, RELEASED[2], []);
    NothingMore(RELEASED_TABLES);
    assert RELEASED == [RELEASED[0]] + [RELEASED[1], RELEASED[2]];
    assert [RELEASED[1], RELEASED[2]] == [RELEASED[1]] + [RELEASED[2]] && [RELEASED[2]] == [RELEASED[2]] + [];
  }

  lemma NothingMore(db: Db)
    ensures InsertAll(db, []) == Some(db)
  {
  }

  /* ---- The deferred checks ---- */

  /** Tables that differ only in what was estimated, quoted and released. */
  ghost predicate SameCorpus(db: Db) {
    && db.facets == STANDING_TABLES.facets && db.coverage == STANDING_TABLES.coverage
    && db.evidence == STANDING_TABLES.evidence && db.retractions == STANDING_TABLES.retractions
    && db.artifacts == STANDING_TABLES.artifacts && db.validations == STANDING_TABLES.validations
    && db.inputs == STANDING_TABLES.inputs
  }

  lemma Latest(db: Db, at: Instant)
    requires SameCorpus(db) && at >= 10
    ensures LatestBy(db, "coverage", "dossier", "ROUTES", at)
  {
  }

  lemma OnlyRoutesAsked(db: Db, facet: string)
    requires SameCorpus(db)
    ensures Asked(db, "dossier", facet) <==> facet == "ROUTES"
    ensures FacetIds(db, "dossier") == {"facet"}
  {
    assert db.facets["facet"] == Facet("dossier", "ROUTES");
  }

  lemma {:induction false} UnitsCounted(db: Db, facets: seq<string>)
    requires SameCorpus(db) && forall i, j | 0 <= i < j < |facets| :: facets[i] != facets[j]
    ensures CountUnits(db, COUNT, facets) == if "ROUTES" in facets then 2 else 0
  {
    hide Asked;
    if facets != [] {
      var n := |facets| - 1;
      UnitsCounted(db, facets[..n]);
      OnlyRoutesAsked(db, facets[n]);
      assert facets == facets[..n] + [facets[n]];
      assert QuotedFor(COUNT.perFacet, "ROUTES") == Some(Quoted("ROUTES", Thin, 2));
      hide QuotedFor;
    }
  }

  /** Enough of a facet's name to tell the facets apart. */
  function Mark(facet: string): (int, char, char)
    requires |facet| >= 4
  {
    (|facet|, facet[0], facet[3])
  }

  lemma FacetsDiffer()
    ensures forall i, j | 0 <= i < j < |FACETS| :: FACETS[i] != FACETS[j]
  {
    assert forall i | 0 <= i < |FACETS| :: |FACETS[i]| >= 4;
    assert Mark(FACETS[0]) == (17, 'S', 'P') && Mark(FACETS[1]) == (10, 'F', 'I') && Mark(FACETS[2]) == (22, 'M', 'E');
    assert Mark(FACETS[3]) == (17, 'C', 'A') && Mark(FACETS[4]) == (6, 'R', 'T') && Mark(FACETS[5]) == (11, 'L', 'D');
    assert Mark(FACETS[6]) == (10, 'D', 'E') && Mark(FACETS[7]) == (4, 'R', 'K') && Mark(FACETS[8]) == (12, 'A', 'E');
  }

  lemma EstimateCounts()
    ensures EstimateStands(ESTIMATED_TABLES, COUNT)
  {
    var db := ESTIMATED_TABLES;
    assert SameCorpus(db);
    hide CountUnits, Asked, LatestBy, FacetIds;
    FacetsDiffer();
    UnitsCounted(db, FACETS);
    assert FACETS[4] == "ROUTES";
    OnlyRoutesAsked(db, "ROUTES");
    Latest(db, 11);
    forall f | f in FACETS && Asked(db, "dossier", f) ensures CountedAsAssessed(db, COUNT, f) {
      OnlyRoutesAsked(db, f);
      assert LatestBy(db, "coverage", COUNT.dossierId, f, COUNT.estimatedAt);
    }
  }

  lemma BuildIsRight()
    ensures ReleaseStands(RELEASED_TABLES, "release")
  {
    var db := RELEASED_TABLES;
    assert SameCorpus(db);
    hide LatestBy, FacetIds;
    Latest(db, 13);
    OnlyRoutesAsked(db, "ROUTES");
    assert NamedRight(db, BUILD, "coverage");
    assert NAMED in db.namings && FacetNamed(db, "release", "facet");
  }

  /** The only retraction is of a record the artifact does not rest on, and from before the assessment. */
  lemma CorpusIsStill()
    ensures CorpusStill(RELEASED_TABLES, "release")
  {
  }

  lemma ClaimRests()
    ensures RestsOnPresent(RELEASED_TABLES, CLAIM)
  {
    assert NAMED in RELEASED_TABLES.namings && "evidence" in RELEASED_TABLES.evidence;
  }

  lemma EstimatedCommits()
    ensures Commits(STANDING_TABLES, ESTIMATED) && After(STANDING_TABLES, ESTIMATED) == ESTIMATED_TABLES
  {
    hide InsertAll, EstimateStands, STANDING_TABLES, ESTIMATED_TABLES;
    EstimatedRows();
    EstimateCounts();
  }

  lemma PricedCommits()
    ensures Commits(ESTIMATED_TABLES, PRICED) && After(ESTIMATED_TABLES, PRICED) == QUOTED_TABLES
  {
    hide InsertAll, ESTIMATED_TABLES, QUOTED_TABLES;
    PricedRows();
  }

  /** What is checked at commit of the last three rows. */
  lemma ReleasedChecks(db: Db)
    requires "release" in db.releases && ReleaseStands(db, "release") && CorpusStill(db, "release")
      && RestsOnPresent(db, CLAIM)
    ensures forall row | row in RELEASED :: Deferred(db, row)
  {
    hide ReleaseStands, CorpusStill, RestsOnPresent;
  }

  lemma ReleasedCommits()
    ensures Commits(QUOTED_TABLES, RELEASED) && After(QUOTED_TABLES, RELEASED) == RELEASED_TABLES
  {
    hide InsertAll, ReleaseStands, CorpusStill, RestsOnPresent, Deferred, RELEASED, QUOTED_TABLES, RELEASED_TABLES;
    ReleasedRows();
    Concluded();
    BuildIsRight();
    CorpusIsStill();
    ClaimRests();
    ReleasedChecks(RELEASED_TABLES);
  }

  const RELEASE_RUN: seq<seq<Row>> := [PREPARED, ASSESSMENT, ESTIMATED, PRICED, RELEASED]

  lemma RunsToRelease()
    ensures Run(RELEASE_RUN) == RELEASED_TABLES
  {
    LateInputRun();
    EstimatedCommits();
    PricedCommits();
    ReleasedCommits();
    hide After, Commits, Inv, STANDING_TABLES, ESTIMATED_TABLES, QUOTED_TABLES, RELEASED_TABLES;
    var two, three := [PREPARED, ASSESSMENT], [PREPARED, ASSESSMENT, ESTIMATED];
    var four := [PREPARED, ASSESSMENT, ESTIMATED, PRICED];
    hide PREPARED, ASSESSMENT, ESTIMATED, PRICED, RELEASED;
    assert three[..2] == two && four[..3] == three && RELEASE_RUN[..4] == four;
    assert Run(three) == ESTIMATED_TABLES;
    assert Run(four) == QUOTED_TABLES;
  }

  lemma Concluded()
    ensures "release" in RELEASED_TABLES.releases && NamedFor(RELEASED_TABLES, "release", "ROUTES", "coverage")
    ensures RELEASED_TABLES.releases["release"] == BUILD && RELEASED_TABLES.quotations["quotation"] == QUOTE
    ensures RELEASED_TABLES.policies["policy"] == PRICE
  {
    assert NAMED in RELEASED_TABLES.namings;
  }

  /** Five committed transactions that end in a release, with every invariant holding and its promises about it. */
  lemma ReleaseRun()
    ensures Run(RELEASE_RUN) == RELEASED_TABLES && Inv(RELEASED_TABLES) && "release" in RELEASED_TABLES.releases
    ensures NamedFor(RELEASED_TABLES, "release", "ROUTES", "coverage")
    ensures EarnsPresent(RELEASED_TABLES, "coverage", "artifact")
    ensures NamedUnits(RELEASED_TABLES, "release", FACETS) * PRICE.unitPriceMinor == QUOTE.amountMinor == 200
  {
    RunsToRelease();
    StillEarned();
    EarnsStill();
    Concluded();
    hide Run, Books, EvidenceStands, RELEASED_TABLES, NamedFor, EarnsPresent, NamedUnits;
    EveryRunKeeps(RELEASE_RUN);
    QuotedAmountIsWhatWasBuilt(RELEASED_TABLES, "release");
  }

  lemma StillEarned()
    ensures EvidenceStands(RELEASED_TABLES)
  {
    NotYet();
  }

  lemma EarnsStill()
    ensures EarnsPresent(RELEASED_TABLES, "coverage", "artifact")
  {
    StillEarned();
    assert RELEASED_TABLES.evidence["evidence"] == CITED;
    hide Expected;
  }
}
