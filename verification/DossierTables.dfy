/**
 The dossier tables (src/db/dossierLedger.ts) and what an insert must pass at once: keys, CHECK constraints
 and BEFORE triggers.
 */
module DossierTables {
  import opened Basics
  import opened Ancestry

  const DELIVERY_RIGHT := "customer_delivery"
  const FACETS := ["SUPPLIER_IDENTITY", "FACILITIES", "MATERIAL_COMPATIBILITY", "CAPACITY_EVIDENCE", "ROUTES",
                   "LANDED_COST", "DEPENDENCY", "RISK", "ALTERNATIVES"]

  datatype Level = NoLevel | Thin | Supported
  datatype Assessment = Present | Stale | Conflicting | Missing | Disallowed
  datatype Kind = Correction | Withdrawal

  datatype Artifact = Artifact(runId: string, subject: string, claim: string, computedAt: Instant,
                               horizonEndsAt: Option<Instant>, rights: set<string>)
  datatype Retraction = Retraction(retractionId: string, recordId: string, kind: Kind, issuedAt: Instant)
  datatype Validation = Validation(artifactId: string, validatedAt: Instant, falsified: bool)
  datatype Spec = Spec(recipientId: string)
  datatype Facet = Facet(dossierId: string, facet: string)
  datatype Coverage = Coverage(facetId: string, level: Level, assessment: Assessment, available: int, present: int,
                               stale: int, conflicting: int, disallowed: int, runs: int, runsUsable: int,
                               artifactIds: seq<string>, assessedAt: Instant)
  datatype Evidence = Evidence(coverageId: string, artifactId: string, runId: string, assessment: Assessment)
  datatype Quoted = Quoted(facet: string, level: Level, units: int)
  datatype Estimate = Estimate(dossierId: string, units: int, perFacet: seq<Quoted>, estimatedAt: Instant)
  datatype Policy = Policy(unitPriceMinor: int)
  datatype Quotation = Quotation(dossierId: string, policyId: string, unitPriceMinor: int, estimateId: string,
                                 units: int, estimatedAt: Instant, amountMinor: int, quotedAt: Instant)
  datatype Release = Release(dossierId: string, recipientId: string, version: int, quotationId: string,
                             quotedAt: Instant, builtAt: Instant, releasedAt: Instant)
  datatype Naming = Naming(releaseId: string, coverageId: string)
  datatype Conclusion = Conclusion(releaseId: string, facet: string, artifactId: string)

  datatype Db = Db(artifacts: map<string, Artifact>, inputs: set<Input>, retractions: set<Retraction>,
                   validations: map<string, Validation>, specs: map<string, Spec>, facets: map<string, Facet>,
                   coverage: map<string, Coverage>, evidence: map<string, Evidence>, estimates: map<string, Estimate>,
                   policies: map<string, Policy>, quotations: map<string, Quotation>, releases: map<string, Release>,
                   namings: set<Naming>, conclusions: map<string, Conclusion>)

  const EMPTY := Db(map[], {}, {}, map[], map[], map[], map[], map[], map[], map[], map[], map[], {}, map[])

  datatype Row =
    | ArtifactRow(id: string, artifact: Artifact)
    | InputRow(input: Input, knownAt: Instant, rights: set<string>)
    | RetractionRow(retraction: Retraction)
    | ValidationRow(id: string, validation: Validation)
    | SpecRow(id: string, spec: Spec)
    | FacetRow(id: string, facet: Facet)
    | CoverageRow(id: string, coverage: Coverage)
    | EvidenceRow(id: string, evidence: Evidence)
    | EstimateRow(id: string, estimate: Estimate)
    | PolicyRow(id: string, policy: Policy)
    | QuotationRow(id: string, quotation: Quotation)
    | ReleaseRow(id: string, release: Release)
    | NamingRow(naming: Naming)
    | ConclusionRow(id: string, conclusion: Conclusion)

  /* ---- Immediate checks: keys, CHECK constraints and BEFORE triggers ---- */

  function Units(level: Level): int {
    match level case NoLevel => 1 case Thin => 2 case Supported => 3
  }

  /** The level counts the present artifacts. */
  function CoverageLevel(present: int, runsUsable: int): Level {
    if present == 0 then NoLevel else if present >= 2 && runsUsable >= 2 then Supported else Thin
  }

  /** The assessment is worst first over what is not present. */
  function Rollup(c: Coverage): Assessment {
    if c.available == 0 then Missing
    else if c.conflicting > 0 then Conflicting
    else if c.stale > 0 then Stale
    else if c.disallowed > 0 then Disallowed
    else Present
  }

  predicate CoverageChecks(c: Coverage) {
    && c.present >= 0 && c.stale >= 0 && c.conflicting >= 0 && c.disallowed >= 0 && c.runs >= 0 && c.runsUsable >= 0
    && |c.artifactIds| == c.available
    && c.present + c.stale + c.conflicting + c.disallowed == c.available
    && c.runs <= c.available && (c.runs == 0 <==> c.available == 0)
    && c.runsUsable <= c.present && c.runsUsable <= c.runs && (c.runsUsable == 0 <==> c.present == 0)
    && c.level == CoverageLevel(c.present, c.runsUsable)
    && c.assessment == Rollup(c)
  }

  /** Later than the last assessment of the facet, and than every count and build that has read the dossier. */
  predicate AssessedBehind(db: Db, c: Coverage)
    requires c.facetId in db.facets
  {
    var dossier := db.facets[c.facetId].dossierId;
    || (exists k | k in db.coverage :: db.coverage[k].facetId == c.facetId && c.assessedAt < db.coverage[k].assessedAt)
    || (exists k | k in db.estimates ::
          db.estimates[k].dossierId == dossier && c.assessedAt <= db.estimates[k].estimatedAt)
    || (exists k | k in db.releases :: db.releases[k].dossierId == dossier && c.assessedAt <= db.releases[k].builtAt)
  }

  predicate FacetAfterTheCount(db: Db, dossier: string) {
    || (exists k | k in db.estimates :: db.estimates[k].dossierId == dossier)
    || (exists k | k in db.releases :: db.releases[k].dossierId == dossier)
  }

  /** An artifact may be said to read a thing twice: the unique key over what is read always has a null column. */
  predicate InputAllowed(db: Db, i: Input, knownAt: Instant) {
    && i.artifact in db.artifacts
    && match i.read
       case Source(_) => knownAt <= db.artifacts[i.artifact].computedAt
       case Derived(a) => a in db.artifacts && db.artifacts[a].computedAt < db.artifacts[i.artifact].computedAt
  }

  predicate EvidenceAllowed(db: Db, e: Evidence) {
    && e.coverageId in db.coverage && e.artifactId in db.artifacts && db.artifacts[e.artifactId].runId == e.runId
    && e.assessment != Missing
    && !exists k | k in db.evidence ::
         db.evidence[k].coverageId == e.coverageId && db.evidence[k].artifactId == e.artifactId
  }

  predicate CoverageAllowed(db: Db, c: Coverage) {
    && c.facetId in db.facets && CoverageChecks(c) && !AssessedBehind(db, c)
    && !exists k | k in db.coverage :: db.coverage[k].facetId == c.facetId && db.coverage[k].assessedAt == c.assessedAt
  }

  predicate FacetAllowed(db: Db, f: Facet) {
    && f.dossierId in db.specs && f.facet in FACETS && !FacetAfterTheCount(db, f.dossierId)
    && !exists k | k in db.facets :: db.facets[k] == f
  }

  predicate QuotationAllowed(db: Db, q: Quotation) {
    && q.dossierId in db.specs
    && q.policyId in db.policies && db.policies[q.policyId].unitPriceMinor == q.unitPriceMinor
    && q.estimateId in db.estimates && db.estimates[q.estimateId].dossierId == q.dossierId
    && db.estimates[q.estimateId].units == q.units && db.estimates[q.estimateId].estimatedAt == q.estimatedAt
    && q.estimatedAt <= q.quotedAt
    && q.amountMinor == q.units * q.unitPriceMinor && q.amountMinor > 0
  }

  predicate ReleaseAllowed(db: Db, r: Release) {
    && r.dossierId in db.specs && db.specs[r.dossierId].recipientId == r.recipientId && r.version >= 1
    && r.quotationId in db.quotations && db.quotations[r.quotationId].dossierId == r.dossierId
    && db.quotations[r.quotationId].quotedAt == r.quotedAt
    && r.quotedAt <= r.builtAt <= r.releasedAt
    && !exists k | k in db.releases :: db.releases[k].dossierId == r.dossierId && db.releases[k].version == r.version
  }

  predicate ValidationAllowed(db: Db, v: Validation) {
    && v.artifactId in db.artifacts && v.validatedAt >= db.artifacts[v.artifactId].computedAt
    && !exists k | k in db.validations ::
         db.validations[k].artifactId == v.artifactId && db.validations[k].validatedAt == v.validatedAt
  }

  predicate ConclusionAllowed(db: Db, c: Conclusion) {
    && c.releaseId in db.releases && c.artifactId in db.artifacts && c.facet in FACETS
    && !exists k | k in db.conclusions ::
         db.conclusions[k].releaseId == c.releaseId && db.conclusions[k].facet == c.facet
  }

  /** The primary key is free. */
  predicate FreshKey(db: Db, row: Row) {
    match row
    case ArtifactRow(id, _) => id !in db.artifacts
    case InputRow(_, _, _) => true
    case RetractionRow(r) =>
      !exists s | s in db.retractions :: s.retractionId == r.retractionId && s.recordId == r.recordId
    case ValidationRow(id, _) => id !in db.validations
    case SpecRow(id, _) => id !in db.specs
    case FacetRow(id, _) => id !in db.facets
    case CoverageRow(id, _) => id !in db.coverage
    case EvidenceRow(id, _) => id !in db.evidence
    case EstimateRow(id, _) => id !in db.estimates
    case PolicyRow(id, _) => id !in db.policies
    case QuotationRow(id, _) => id !in db.quotations
    case ReleaseRow(id, _) => id !in db.releases
    case NamingRow(n) => n !in db.namings
    case ConclusionRow(id, _) => id !in db.conclusions
  }

  /** The foreign keys, other unique keys, checks and immediate triggers pass. */
  predicate Allowed(db: Db, row: Row) {
    match row
    case ArtifactRow(_, a) => a.horizonEndsAt.Some? ==> a.horizonEndsAt.value > a.computedAt
    case InputRow(i, knownAt, _) => InputAllowed(db, i, knownAt)
    case RetractionRow(_) => true
    case ValidationRow(_, v) => ValidationAllowed(db, v)
    case SpecRow(_, _) => true
    case FacetRow(_, f) => FacetAllowed(db, f)
    case CoverageRow(_, c) => CoverageAllowed(db, c)
    case EvidenceRow(_, e) => EvidenceAllowed(db, e)
    case EstimateRow(_, e) => e.dossierId in db.specs && e.units > 0
    case PolicyRow(_, p) => p.unitPriceMinor > 0
    case QuotationRow(_, q) => QuotationAllowed(db, q)
    case ReleaseRow(_, r) => ReleaseAllowed(db, r)
    case NamingRow(n) => n.releaseId in db.releases && n.coverageId in db.coverage
    case ConclusionRow(_, c) => ConclusionAllowed(db, c)
  }

  function Add(db: Db, row: Row): Db {
    match row
    case ArtifactRow(id, a) => db.(artifacts := db.artifacts[id := a])
    case InputRow(i, _, _) => db.(inputs := db.inputs + {i})
    case RetractionRow(r) => db.(retractions := db.retractions + {r})
    case ValidationRow(id, v) => db.(validations := db.validations[id := v])
    case SpecRow(id, s) => db.(specs := db.specs[id := s])
    case FacetRow(id, f) => db.(facets := db.facets[id := f])
    case CoverageRow(id, c) => db.(coverage := db.coverage[id := c])
    case EvidenceRow(id, e) => db.(evidence := db.evidence[id := e])
    case EstimateRow(id, e) => db.(estimates := db.estimates[id := e])
    case PolicyRow(id, p) => db.(policies := db.policies[id := p])
    case QuotationRow(id, q) => db.(quotations := db.quotations[id := q])
    case ReleaseRow(id, r) => db.(releases := db.releases[id := r])
    case NamingRow(n) => db.(namings := db.namings + {n})
    case ConclusionRow(id, c) => db.(conclusions := db.conclusions[id := c])
  }

  /** One insert: the database with the row, or a refusal. */
  function Insert(db: Db, row: Row): Option<Db> {
    if FreshKey(db, row) && Allowed(db, row) then Some(Add(db, row)) else None
  }

  /** The rows in order, each seeing those before it. */
  function InsertAll(db: Db, rows: seq<Row>): Option<Db>
    decreases |rows|
  {
    if rows == [] then Some(db)
    else
      var next := Insert(db, rows[0]);
      if next.None? then None else InsertAll(next.value, rows[1..])
  }
}
