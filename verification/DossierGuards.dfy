/**
 What a row must be to go in (src/db/dossierLedger.ts, src/db/discoveryLedger.ts), table by table, and what a
 transaction is refused for at its commit.
 */
module DossierGuards {
  import opened Basics
  import opened Ancestry
  import opened DossierTables
  import opened DossierLedger
  import opened DossierPromises

  const NAMED_FACETS := {
    "SUPPLIER_IDENTITY", "FACILITIES", "MATERIAL_COMPATIBILITY", "CAPACITY_EVIDENCE", "ROUTES", "LANDED_COST",
    "DEPENDENCY", "RISK", "ALTERNATIVES"}

  /** The counts add up, THIN takes one present artifact and SUPPORTED two over two runs, and the worst count shows. */
  predicate Tallied(c: Coverage) {
    && c.present >= 0 && c.stale >= 0 && c.conflicting >= 0 && c.disallowed >= 0
    && |c.artifactIds| == c.available == c.present + c.stale + c.conflicting + c.disallowed
    && 0 <= c.runsUsable <= c.runs <= c.available && c.runsUsable <= c.present
    && (c.available > 0 ==> c.runs > 0) && (c.present > 0 ==> c.runsUsable > 0)
    && (c.level == NoLevel <==> c.present == 0)
    && (c.level == Supported <==> c.present > 1 && c.runsUsable > 1)
    && (c.assessment == Missing <==> |c.artifactIds| == 0)
    && (c.assessment == Conflicting <==> c.conflicting != 0)
    && (c.assessment == Stale <==> c.conflicting == 0 != c.stale)
    && (c.assessment == Disallowed <==> c.conflicting == c.stale == 0 != c.disallowed)
    && (c.assessment == Present <==> c.present == c.available != 0)
  }

  /** An assessment is later than every other of its facet, and than every count and build of its dossier. */
  predicate LatestOfAll(db: Db, c: Coverage)
    requires c.facetId in db.facets
  {
    var dossier := db.facets[c.facetId].dossierId;
    && (forall k | k in db.coverage && db.coverage[k].facetId == c.facetId :: db.coverage[k].assessedAt < c.assessedAt)
    && (forall k | k in db.estimates && db.estimates[k].dossierId == dossier ::
          db.estimates[k].estimatedAt < c.assessedAt)
    && (forall k | k in db.releases && db.releases[k].dossierId == dossier :: db.releases[k].builtAt < c.assessedAt)
  }

  /** What each kind of row must be. */
  ghost predicate Fits(db: Db, row: Row) {
    match row
    case ArtifactRow(id, a) => id !in db.artifacts && (a.horizonEndsAt == None || a.computedAt < a.horizonEndsAt.value)
    case InputRow(Input(a, Source(_)), knownAt, _) => a in db.artifacts && knownAt <= db.artifacts[a].computedAt
    case InputRow(Input(a, Derived(b)), _, _) =>
      a in db.artifacts && b in db.artifacts && db.artifacts[b].computedAt < db.artifacts[a].computedAt
    case RetractionRow(r) =>
      forall s | s in db.retractions && s.retractionId == r.retractionId :: s.recordId != r.recordId
    case ValidationRow(id, v) =>
      && id !in db.validations && v.artifactId in db.artifacts && db.artifacts[v.artifactId].computedAt <= v.validatedAt
      && forall k | k in db.validations && db.validations[k].artifactId == v.artifactId ::
           db.validations[k].validatedAt != v.validatedAt
    case SpecRow(id, _) => id !in db.specs
    case FacetRow(id, f) =>
      && id !in db.facets && f.dossierId in db.specs && f.facet in NAMED_FACETS
      && (forall k | k in db.facets && db.facets[k].dossierId == f.dossierId :: db.facets[k].facet != f.facet)
      && (forall k | k in db.estimates :: db.estimates[k].dossierId != f.dossierId)
      && (forall k | k in db.releases :: db.releases[k].dossierId != f.dossierId)
    case CoverageRow(id, c) => id !in db.coverage && c.facetId in db.facets && Tallied(c) && LatestOfAll(db, c)
    case EvidenceRow(id, e) =>
      && id !in db.evidence && e.coverageId in db.coverage && e.artifactId in db.artifacts
      && e.runId == db.artifacts[e.artifactId].runId
      && e.assessment in {Present, Stale, Conflicting, Disallowed}
      && forall k | k in db.evidence && db.evidence[k].coverageId == e.coverageId ::
           db.evidence[k].artifactId != e.artifactId
    case EstimateRow(id, e) => id !in db.estimates && e.dossierId in db.specs && e.units >= 1
    case PolicyRow(id, p) => id !in db.policies && p.unitPriceMinor >= 1
    case QuotationRow(id, q) =>
      && id !in db.quotations && q.dossierId in db.specs
      && q.policyId in db.policies && db.policies[q.policyId] == Policy(q.unitPriceMinor)
      && (exists perFacet :: q.estimateId in db.estimates
            && db.estimates[q.estimateId] == Estimate(q.dossierId, q.units, perFacet, q.estimatedAt))
      && q.quotedAt >= q.estimatedAt && 0 < q.amountMinor == q.units * q.unitPriceMinor
    case ReleaseRow(id, r) =>
      && id !in db.releases && r.dossierId in db.specs && db.specs[r.dossierId] == Spec(r.recipientId) && r.version > 0
      && r.quotationId in db.quotations && db.quotations[r.quotationId].dossierId == r.dossierId
      && db.quotations[r.quotationId].quotedAt == r.quotedAt && r.quotedAt <= r.builtAt <= r.releasedAt
      && forall k | k in db.releases && db.releases[k].dossierId == r.dossierId :: db.releases[k].version != r.version
    case NamingRow(n) => n !in db.namings && n.releaseId in db.releases && n.coverageId in db.coverage
    case ConclusionRow(id, c) =>
      && id !in db.conclusions && c.releaseId in db.releases && c.artifactId in db.artifacts && c.facet in NAMED_FACETS
      && forall k | k in db.conclusions && db.conclusions[k].releaseId == c.releaseId ::
           db.conclusions[k].facet != c.facet
  }

  lemma ChecksExactly(c: Coverage)
    ensures CoverageChecks(c) <==> Tallied(c)
  {
  }

  lemma BehindExactly(db: Db, c: Coverage)
    requires c.facetId in db.facets
    ensures LatestOfAll(db, c) <==>
      !AssessedBehind(db, c)
      && !exists k | k in db.coverage ::
           db.coverage[k].facetId == c.facetId && db.coverage[k].assessedAt == c.assessedAt
  {
  }

  lemma FacetsNamed(f: string)
    ensures f in FACETS <==> f in NAMED_FACETS
  {
    assert FACETS[0] in NAMED_FACETS && FACETS[1] in NAMED_FACETS && FACETS[2] in NAMED_FACETS;
    assert FACETS[3] in NAMED_FACETS && FACETS[4] in NAMED_FACETS && FACETS[5] in NAMED_FACETS;
    assert FACETS[6] in NAMED_FACETS && FACETS[7] in NAMED_FACETS && FACETS[8] in NAMED_FACETS;
  }

  lemma CoverageFits(db: Db, id: string, c: Coverage)
    ensures Insert(db, CoverageRow(id, c)).Some? <==> Fits(db, CoverageRow(id, c))
  {
    ChecksExactly(c);
    if c.facetId in db.facets { BehindExactly(db, c); }
    hide CoverageChecks, AssessedBehind, Tallied, LatestOfAll;
  }

  lemma QuotationFits(db: Db, id: string, q: Quotation)
    ensures Insert(db, QuotationRow(id, q)).Some? <==> Fits(db, QuotationRow(id, q))
  {
    if q.estimateId in db.estimates {
      var e := db.estimates[q.estimateId];
      assert e == Estimate(e.dossierId, e.units, e.perFacet, e.estimatedAt);
    }
  }

  lemma ReleaseFits(db: Db, row: Row)
    requires row.ReleaseRow? || row.NamingRow? || row.ConclusionRow?
    ensures Insert(db, row).Some? <==> Fits(db, row)
  {
    if row.ConclusionRow? { FacetsNamed(row.conclusion.facet); }
  }

  lemma FacetFits(db: Db, id: string, f: Facet)
    ensures Insert(db, FacetRow(id, f)).Some? <==> Fits(db, FacetRow(id, f))
  {
    FacetsNamed(f.facet);
  }

  lemma EvidenceFits(db: Db, row: Row)
    requires row.EvidenceRow? || row.EstimateRow? || row.PolicyRow?
    ensures Insert(db, row).Some? <==> Fits(db, row)
  {
  }

  lemma CorpusFits(db: Db, row: Row)
    requires row.ArtifactRow? || row.InputRow? || row.RetractionRow? || row.ValidationRow? || row.SpecRow?
    ensures Insert(db, row).Some? <==> Fits(db, row)
  {
  }

  /** A row goes in exactly when it fits the tables. */
  lemma InsertsExactly(db: Db, row: Row)
    ensures Insert(db, row).Some? <==> Fits(db, row)
  {
    hide Insert, Fits;
    match row
    case CoverageRow(id, c) => CoverageFits(db, id, c);
    case QuotationRow(id, q) => QuotationFits(db, id, q);
    case FacetRow(id, f) => FacetFits(db, id, f);
    case ReleaseRow(_, _) => ReleaseFits(db, row);
    case NamingRow(_) => ReleaseFits(db, row);
    case ConclusionRow(_, _) => ReleaseFits(db, row);
    case EvidenceRow(_, _) => EvidenceFits(db, row);
    case EstimateRow(_, _) => EvidenceFits(db, row);
    case PolicyRow(_, _) => EvidenceFits(db, row);
    case _ => CorpusFits(db, row);
  }

  /* ---- At commit ---- */

  /** What was named has not moved exactly when nothing about its present artifacts is dated after it, by the build. */
  lemma StillExactly(db: Db, id: string)
    requires id in db.releases
    ensures CorpusStill(db, id) <==>
      forall n, k | n in db.namings && n.releaseId == id && n.coverageId in db.coverage && k in db.evidence
        && db.evidence[k].coverageId == n.coverageId && db.evidence[k].assessment == Present ::
        var a, at, built := db.evidence[k].artifactId, db.coverage[n.coverageId].assessedAt, db.releases[id].builtAt;
        && (forall r | r in db.retractions && RestsOn(db.inputs, a, r.recordId) ::
              r.issuedAt <= at || built < r.issuedAt)
        && (forall v | v in db.validations && db.validations[v].artifactId == a && db.validations[v].falsified ::
              db.validations[v].validatedAt <= at || built < db.validations[v].validatedAt)
        && (a in db.artifacts && db.artifacts[a].horizonEndsAt.Some? ==>
              db.artifacts[a].horizonEndsAt.value <= at || built < db.artifacts[a].horizonEndsAt.value)
  {
    hide RestsOn;
  }

  /** No transaction states an input narrower than the rights of the artifact that reads it. */
  lemma NarrowInputIsRefused(db: Db, rows: seq<Row>, i: Input, knownAt: Instant, rights: set<string>)
    requires InputRow(i, knownAt, rights) in rows && i.artifact in db.artifacts
    requires !(db.artifacts[i.artifact].rights <= rights) && InsertAll(db, rows).Some?
    requires i.artifact in InsertAll(db, rows).value.artifacts
      && InsertAll(db, rows).value.artifacts[i.artifact] == db.artifacts[i.artifact]
    ensures !Commits(db, rows)
  {
    hide InsertAll;
    assert !Deferred(InsertAll(db, rows).value, InputRow(i, knownAt, rights));
  }

  /** No transaction leaves behind an artifact that read nothing. */
  lemma UnreadArtifactIsRefused(db: Db, rows: seq<Row>, id: string, a: Artifact)
    requires ArtifactRow(id, a) in rows && InsertAll(db, rows).Some?
    requires forall i | i in InsertAll(db, rows).value.inputs :: i.artifact != id
    ensures !Commits(db, rows)
  {
    hide InsertAll;
    assert !Deferred(InsertAll(db, rows).value, ArtifactRow(id, a));
  }

  /** An allowed input that carries the rights of its artifact, and an artifact that reads it, are never refused. */
  lemma CarriedInputGoesIn(db: Db, i: Input, knownAt: Instant, rights: set<string>)
    requires Fits(db, InputRow(i, knownAt, rights)) && db.artifacts[i.artifact].rights <= rights
    ensures Commits(db, [InputRow(i, knownAt, rights)])
  {
    InsertsExactly(db, InputRow(i, knownAt, rights));
    OneRow(db, InputRow(i, knownAt, rights));
    hide InsertAll;
  }
}
