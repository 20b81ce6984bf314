/**
 What holds of the tables in every committed state, and what inserting rows does to them.
 */
module DossierGrowth {
  import opened DossierTables
  import opened DossierLedger

  ghost predicate Keyed(db: Db) {
    && (forall k | k in db.evidence ::
         && db.evidence[k].coverageId in db.coverage && db.evidence[k].artifactId in db.artifacts
         && db.artifacts[db.evidence[k].artifactId].runId == db.evidence[k].runId)
    && (forall k | k in db.coverage :: db.coverage[k].facetId in db.facets && CoverageChecks(db.coverage[k]))
    && (forall k | k in db.facets :: db.facets[k].facet in FACETS)
    && (forall i | i in db.inputs :: i.artifact in db.artifacts)
    && (forall k | k in db.conclusions :: db.conclusions[k].releaseId in db.releases)
  }

  /**
   Every quotation prices its own dossier's estimate at its policy's rate, and every release names its dossier's
   quotation.
   */
  ghost predicate Priced(db: Db) {
    && (forall k | k in db.quotations :: QuotationAllowed(db, db.quotations[k]))
    && (forall k | k in db.releases :: db.releases[k].quotationId in db.quotations
         && db.quotations[db.releases[k].quotationId].dossierId == db.releases[k].dossierId)
  }

  ghost predicate InputsEarlier(db: Db) {
    forall i | i in db.inputs && i.read.Derived? ::
      && i.artifact in db.artifacts && i.read.artifact in db.artifacts
      && db.artifacts[i.read.artifact].computedAt < db.artifacts[i.artifact].computedAt
  }

  ghost predicate UniqueRows(db: Db) {
    && (forall j, k | j in db.evidence && k in db.evidence && j != k ::
         db.evidence[j].coverageId != db.evidence[k].coverageId
           || db.evidence[j].artifactId != db.evidence[k].artifactId)
    && (forall j, k | j in db.coverage && k in db.coverage && j != k ::
         db.coverage[j].facetId != db.coverage[k].facetId || db.coverage[j].assessedAt != db.coverage[k].assessedAt)
    && (forall j, k | j in db.facets && k in db.facets && j != k :: db.facets[j] != db.facets[k])
  }

  /** Every standing evidence row is still what its artifact earns at the row's own instant. */
  ghost predicate EvidenceStands(db: Db) { forall k | k in db.evidence :: Earned(db, db.evidence[k]) }

  /** Every coverage row is the sum of its evidence. */
  ghost predicate CoverageStands(db: Db) { forall k | k in db.coverage :: CoverageMatches(db, k) }

  ghost predicate EstimatesStand(db: Db) { forall k | k in db.estimates :: EstimateStands(db, db.estimates[k]) }

  /** Every release still names exactly what its commit checked it named. */
  ghost predicate ReleasesStand(db: Db) { forall k | k in db.releases :: ReleaseStands(db, k) }

  ghost predicate ConclusionsRest(db: Db) { forall k | k in db.conclusions :: RestsOnPresent(db, db.conclusions[k]) }

  /** What the guards keep over every run. */
  ghost predicate Books(db: Db) {
    && Keyed(db) && Priced(db) && InputsEarlier(db) && UniqueRows(db)
    && CoverageStands(db) && EstimatesStand(db) && ReleasesStand(db) && ConclusionsRest(db)
  }

  ghost predicate Inv(db: Db) { Books(db) && EvidenceStands(db) }

  ghost predicate Within<K, V>(m: map<K, V>, m': map<K, V>) {
    forall k | k in m :: k in m' && m'[k] == m[k]
  }

  /** Rows are only added. */
  ghost predicate Grew(db: Db, db': Db) {
    && Within(db.artifacts, db'.artifacts) && db.inputs <= db'.inputs && db.retractions <= db'.retractions
    && Within(db.validations, db'.validations) && Within(db.facets, db'.facets) && Within(db.coverage, db'.coverage)
    && Within(db.evidence, db'.evidence) && Within(db.estimates, db'.estimates) && Within(db.policies, db'.policies)
    && Within(db.quotations, db'.quotations) && Within(db.releases, db'.releases) && db.namings <= db'.namings
    && Within(db.conclusions, db'.conclusions) && Within(db.specs, db'.specs)
  }

  /** Every added row is one of the transaction's, so its deferred triggers fired. */
  ghost predicate Explained(db: Db, db': Db, rows: seq<Row>) {
    && (forall k | k in db'.evidence && k !in db.evidence :: EvidenceRow(k, db'.evidence[k]) in rows)
    && (forall k | k in db'.coverage && k !in db.coverage :: CoverageRow(k, db'.coverage[k]) in rows)
    && (forall k | k in db'.validations && k !in db.validations :: ValidationRow(k, db'.validations[k]) in rows)
    && (forall k | k in db'.estimates && k !in db.estimates :: EstimateRow(k, db'.estimates[k]) in rows)
    && (forall k | k in db'.releases && k !in db.releases :: ReleaseRow(k, db'.releases[k]) in rows)
    && (forall k | k in db'.conclusions && k !in db.conclusions :: ConclusionRow(k, db'.conclusions[k]) in rows)
    && (forall r | r in db'.retractions && r !in db.retractions :: RetractionRow(r) in rows)
    && (forall n | n in db'.namings && n !in db.namings :: NamingRow(n) in rows)
    && (forall i | i in db'.inputs && i !in db.inputs :: exists at, rights :: InputRow(i, at, rights) in rows)
  }

  /**
   A new assessment is later than every count and build that stood before it; a new facet joins no counted dossier.
   */
  ghost predicate NotBackdated(db: Db, db': Db) {
    && (forall k, e | k in db'.coverage && k !in db.coverage && e in db.estimates
         && db'.coverage[k].facetId in db'.facets
         && db'.facets[db'.coverage[k].facetId].dossierId == db.estimates[e].dossierId ::
         db.estimates[e].estimatedAt < db'.coverage[k].assessedAt)
    && (forall k, r | k in db'.coverage && k !in db.coverage && r in db.releases
         && db'.coverage[k].facetId in db'.facets
         && db'.facets[db'.coverage[k].facetId].dossierId == db.releases[r].dossierId ::
         db.releases[r].builtAt < db'.coverage[k].assessedAt)
    && (forall f, e | f in db'.facets && f !in db.facets && e in db.estimates ::
      db'.facets[f].dossierId != db.estimates[e].dossierId)
    && (forall f, r | f in db'.facets && f !in db.facets && r in db.releases ::
      db'.facets[f].dossierId != db.releases[r].dossierId)
  }

  lemma InsertGrows(db: Db, row: Row)
    requires FreshKey(db, row)
    ensures Grew(db, Add(db, row))
  {
  }

  lemma InsertExplained(db: Db, row: Row)
    requires FreshKey(db, row)
    ensures Explained(db, Add(db, row), [row])
  {
  }

  lemma InsertNotBackdated(db: Db, row: Row)
    requires Insert(db, row).Some?
    ensures NotBackdated(db, Insert(db, row).value)
  {
    hide CoverageChecks, InputAllowed, EvidenceAllowed, QuotationAllowed, ReleaseAllowed, ValidationAllowed,
      ConclusionAllowed;
    var db' := Insert(db, row).value;
    if row.CoverageRow? {
      assert !AssessedBehind(db, row.coverage);
    } else if row.FacetRow? {
      assert !FacetAfterTheCount(db, row.facet.dossierId);
    } else {
      assert db'.coverage == db.coverage && db'.facets == db.facets;
    }
  }

  lemma InsertKeepsKeyed(db: Db, row: Row)
    requires Insert(db, row).Some? && Keyed(db)
    ensures Keyed(Insert(db, row).value)
  {
    hide CoverageChecks, AssessedBehind, FacetAfterTheCount, QuotationAllowed, ReleaseAllowed;
  }

  lemma InsertKeepsPriced(db: Db, row: Row)
    requires Insert(db, row).Some? && Priced(db)
    ensures Priced(Insert(db, row).value)
  {
    hide CoverageAllowed, FacetAllowed, EvidenceAllowed, InputAllowed;
    InsertGrows(db, row);
    var db' := Insert(db, row).value;
    forall k | k in db'.quotations ensures QuotationAllowed(db', db'.quotations[k]) {
      var q := db'.quotations[k];
      assert QuotationAllowed(db, q);
    }
  }

  lemma InsertKeepsEarlier(db: Db, row: Row)
    requires Insert(db, row).Some? && InputsEarlier(db)
    ensures InputsEarlier(Insert(db, row).value)
  {
    hide CoverageAllowed, FacetAllowed, EvidenceAllowed, QuotationAllowed, ReleaseAllowed;
  }

  lemma InsertKeepsUnique(db: Db, row: Row)
    requires Insert(db, row).Some? && UniqueRows(db)
    ensures UniqueRows(Insert(db, row).value)
  {
    hide CoverageChecks, AssessedBehind, FacetAfterTheCount, QuotationAllowed, ReleaseAllowed, InputAllowed;
  }

  lemma GrewThrough(a: Db, b: Db, c: Db)
    requires Grew(a, b) && Grew(b, c)
    ensures Grew(a, c)
  {
  }

  lemma ExplainedThrough(a: Db, b: Db, c: Db, row: Row, rows: seq<Row>)
    requires Grew(a, b) && Grew(b, c) && Explained(a, b, [row]) && Explained(b, c, rows)
    ensures Explained(a, c, [row] + rows)
  {
    assert forall r :: r in [row] + rows <==> r == row || r in rows;
  }

  lemma NotBackdatedThrough(a: Db, b: Db, c: Db)
    requires Grew(a, b) && Grew(b, c) && NotBackdated(a, b) && NotBackdated(b, c) && Keyed(b)
    ensures NotBackdated(a, c)
  {
  }

  lemma {:induction false} InsertAllKeeps(db: Db, rows: seq<Row>)
    requires InsertAll(db, rows).Some? && Keyed(db) && Priced(db) && InputsEarlier(db) && UniqueRows(db)
    ensures var db' := InsertAll(db, rows).value;
      && Grew(db, db') && Explained(db, db', rows) && NotBackdated(db, db')
      && Keyed(db') && Priced(db') && InputsEarlier(db') && UniqueRows(db')
    decreases |rows|
  {
    hide FreshKey, Allowed, Add, Grew, Explained, NotBackdated, Keyed, Priced, InputsEarlier, UniqueRows;
    if rows == [] {
      Unmoved(db, rows);
    } else {
      var b := Insert(db, rows[0]).value;
      InsertGrows(db, rows[0]);
      InsertExplained(db, rows[0]);
      InsertNotBackdated(db, rows[0]);
      InsertKeepsKeyed(db, rows[0]);
      InsertKeepsPriced(db, rows[0]);
      InsertKeepsEarlier(db, rows[0]);
      InsertKeepsUnique(db, rows[0]);
      InsertAllKeeps(b, rows[1..]);
      var c := InsertAll(db, rows).value;
      GrewThrough(db, b, c);
      ExplainedThrough(db, b, c, rows[0], rows[1..]);
      NotBackdatedThrough(db, b, c);
      assert rows == [rows[0]] + rows[1..];
    }
  }

  lemma Unmoved(db: Db, rows: seq<Row>)
    ensures Grew(db, db) && Explained(db, db, rows) && NotBackdated(db, db)
  {
  }
}
