/**
 The dossier ledger (src/db/dossierLedger.ts) over the discovery ledger it reads (src/db/discoveryLedger.ts).

 A transaction inserts rows in order. Each insert passes its keys, its checks and its immediate triggers
 against the rows already there; at commit the deferred triggers of every inserted row pass against the
 rows as they will stand, or nothing is written.
 */
module DossierLedger {
  import opened Basics
  import opened Ancestry
  import opened DossierTables

  /* ---- The expected assessment ---- */

  ghost predicate TakenBack(db: Db, artifact: string, at: Instant, kind: Kind) {
    exists r | r in db.retractions :: r.kind == kind && r.issuedAt <= at && RestsOn(db.inputs, artifact, r.recordId)
  }

  predicate Disagrees(db: Db, coverageId: string, artifactId: string, other: Evidence)
    requires artifactId in db.artifacts
  {
    && other.coverageId == coverageId && other.artifactId != artifactId && other.artifactId in db.artifacts
    && db.artifacts[other.artifactId].subject == db.artifacts[artifactId].subject
    && db.artifacts[other.artifactId].claim != db.artifacts[artifactId].claim
  }

  /** The latest record at or before the instant refuted the artifact. */
  predicate Refuted(db: Db, artifact: string, at: Instant) {
    exists k | k in db.validations ::
      && db.validations[k].artifactId == artifact && db.validations[k].validatedAt <= at && db.validations[k].falsified
      && forall j | j in db.validations && db.validations[j].artifactId == artifact
        && db.validations[j].validatedAt <= at ::
           db.validations[j].validatedAt <= db.validations[k].validatedAt
  }

  /** What an artifact earns on a coverage row, as of the row's instant; nothing if it was computed later. */
  ghost function Expected(db: Db, coverageId: string, artifactId: string): Option<Assessment>
    requires coverageId in db.coverage && artifactId in db.artifacts
  {
    var c, a := db.coverage[coverageId], db.artifacts[artifactId];
    if a.computedAt > c.assessedAt then None
    else if DELIVERY_RIGHT !in a.rights then Some(Disallowed)
    else if TakenBack(db, artifactId, c.assessedAt, Correction) then Some(Conflicting)
    else if exists k | k in db.evidence :: Disagrees(db, coverageId, artifactId, db.evidence[k]) then Some(Conflicting)
    else if Refuted(db, artifactId, c.assessedAt) then Some(Conflicting)
    else if a.horizonEndsAt.Some? && a.horizonEndsAt.value < c.assessedAt then Some(Stale)
    else if TakenBack(db, artifactId, c.assessedAt, Withdrawal) then Some(Stale)
    else Some(Present)
  }

  /** The assignment of `corrected` or `withdrawn`: some record under the artifact, taken back by the instant. */
  method AnyTakenBack(db: Db, records: set<string>, at: Instant, kind: Kind, ghost artifact: string) returns (r: bool)
    requires forall x :: x in records <==> RestsOn(db.inputs, artifact, x)
    ensures r <==> TakenBack(db, artifact, at, kind)
  {
    r := exists x | x in db.retractions :: x.kind == kind && x.issuedAt <= at && x.recordId in records;
  }

  /** The instant of the validation standing at an instant: the latest record of the artifact at or before it. */
  method StandingValidation(db: Db, artifact: string, at: Instant) returns (t: Option<Instant>)
    ensures t.None? ==>
      forall k | k in db.validations && db.validations[k].artifactId == artifact :: at < db.validations[k].validatedAt
    ensures t.Some? ==>
      && t.value <= at
      && (exists k | k in db.validations ::
            db.validations[k].artifactId == artifact && db.validations[k].validatedAt == t.value)
      && forall k | k in db.validations && db.validations[k].artifactId == artifact
           && db.validations[k].validatedAt <= at :: db.validations[k].validatedAt <= t.value
  {
    t := None;
    var records := db.validations.Keys;
    while records != {}
      invariant records <= db.validations.Keys
      invariant t.None? ==> forall k | k in db.validations.Keys - records && db.validations[k].artifactId == artifact ::
        at < db.validations[k].validatedAt
      invariant t.Some? ==>
        && t.value <= at
        && (exists k | k in db.validations ::
              db.validations[k].artifactId == artifact && db.validations[k].validatedAt == t.value)
        && forall k | k in db.validations.Keys - records && db.validations[k].artifactId == artifact
             && db.validations[k].validatedAt <= at :: db.validations[k].validatedAt <= t.value
      decreases records
    {
      var k :| k in records;
      var v := db.validations[k];
      if v.artifactId == artifact && v.validatedAt <= at && (t.None? || t.value < v.validatedAt) {
        t := Some(v.validatedAt);
      }
      records := records - {k};
    }
  }

  method ExpectedAssessment(db: Db, coverageId: string, artifactId: string) returns (r: Option<Assessment>)
    requires coverageId in db.coverage && artifactId in db.artifacts
    ensures r == Expected(db, coverageId, artifactId)
  {
    var c, a := db.coverage[coverageId], db.artifacts[artifactId];
    if a.computedAt > c.assessedAt { return None; }
    var records := RecordsUnder(db.inputs, artifactId);
    var corrected := AnyTakenBack(db, records, c.assessedAt, Correction, artifactId);
    var withdrawn := AnyTakenBack(db, records, c.assessedAt, Withdrawal, artifactId);
    var disagreeing := exists k | k in db.evidence :: Disagrees(db, coverageId, artifactId, db.evidence[k]);
    var standing := StandingValidation(db, artifactId, c.assessedAt);
    var refuted := standing.Some? && exists k | k in db.validations ::
      db.validations[k] == Validation(artifactId, standing.value, true);
    return Some(
      if DELIVERY_RIGHT !in a.rights then Disallowed
      else if corrected || disagreeing || refuted then Conflicting
      else if (a.horizonEndsAt.Some? && a.horizonEndsAt.value < c.assessedAt) || withdrawn then Stale
      else Present);
  }

  /* ---- Deferred checks ---- */

  ghost predicate Earned(db: Db, e: Evidence) {
    e.coverageId in db.coverage && e.artifactId in db.artifacts
      && Expected(db, e.coverageId, e.artifactId) == Some(e.assessment)
  }

  function EvidenceOf(db: Db, coverageId: string): (ids: set<string>) {
    set k | k in db.evidence && db.evidence[k].coverageId == coverageId
  }

  function ListedArtifacts(db: Db, coverageId: string): set<string> {
    set k | k in EvidenceOf(db, coverageId) :: db.evidence[k].artifactId
  }

  function CountOf(db: Db, coverageId: string, assessment: Assessment): int {
    |set k | k in EvidenceOf(db, coverageId) && db.evidence[k].assessment == assessment|
  }

  function RunsOf(db: Db, coverageId: string): int {
    |set k | k in EvidenceOf(db, coverageId) :: db.evidence[k].runId|
  }

  function UsableRunsOf(db: Db, coverageId: string): int {
    |set k | k in EvidenceOf(db, coverageId) && db.evidence[k].assessment == Present :: db.evidence[k].runId|
  }

  predicate NoRepeats(s: seq<string>) {
    forall i, j | 0 <= i < j < |s| :: s[i] != s[j]
  }

  /** A coverage row is the sum of its evidence rows: the same artifacts, counts and runs. */
  predicate CoverageMatches(db: Db, id: string)
    requires id in db.coverage
  {
    var c := db.coverage[id];
    && NoRepeats(c.artifactIds) && (set a | a in c.artifactIds) == ListedArtifacts(db, id)
    && c.present == CountOf(db, id, Present) && c.stale == CountOf(db, id, Stale)
    && c.conflicting == CountOf(db, id, Conflicting) && c.disallowed == CountOf(db, id, Disallowed)
    && c.runs == RunsOf(db, id) && c.runsUsable == UsableRunsOf(db, id)
  }

  ghost predicate RetractionLeavesStanding(db: Db, r: Retraction) {
    forall k | k in db.evidence && RestsOn(db.inputs, db.evidence[k].artifactId, r.recordId) ::
      Earned(db, db.evidence[k])
  }

  ghost predicate ValidationLeavesStanding(db: Db, v: Validation) {
    forall k | k in db.evidence && db.evidence[k].artifactId == v.artifactId :: Earned(db, db.evidence[k])
  }

  /** What the estimate says of a facet: its first entry for it. */
  function QuotedFor(perFacet: seq<Quoted>, facet: string): Option<Quoted> {
    if perFacet == [] then None
    else if perFacet[0].facet == facet then Some(perFacet[0])
    else QuotedFor(perFacet[1..], facet)
  }

  function FacetIds(db: Db, dossier: string): set<string> {
    set f | f in db.facets && db.facets[f].dossierId == dossier
  }

  predicate Asked(db: Db, dossier: string, facet: string) {
    exists f | f in db.facets :: db.facets[f] == Facet(dossier, facet)
  }

  predicate CoversFacet(db: Db, id: string, dossier: string, facet: string) {
    id in db.coverage && db.coverage[id].facetId in db.facets
      && db.facets[db.coverage[id].facetId] == Facet(dossier, facet)
  }

  /** The latest assessment of a facet at or before an instant. */
  predicate LatestBy(db: Db, id: string, dossier: string, facet: string, at: Instant) {
    && CoversFacet(db, id, dossier, facet) && db.coverage[id].assessedAt <= at
    && forall k | k in db.coverage && CoversFacet(db, k, dossier, facet) && db.coverage[k].assessedAt <= at ::
         db.coverage[k].assessedAt <= db.coverage[id].assessedAt
  }

  predicate CountedAsAssessed(db: Db, e: Estimate, facet: string) {
    exists id | id in db.coverage ::
      && LatestBy(db, id, e.dossierId, facet, e.estimatedAt)
      && QuotedFor(e.perFacet, facet).Some?
      && QuotedFor(e.perFacet, facet).value.level == db.coverage[id].level
      && QuotedFor(e.perFacet, facet).value.units == Units(db.coverage[id].level)
  }

  /** Units summed over the asked facets, in a fixed order. */
  function CountUnits(db: Db, e: Estimate, facets: seq<string>): int {
    if facets == [] then 0
    else
      var rest := CountUnits(db, e, facets[..|facets| - 1]);
      var f := facets[|facets| - 1];
      if Asked(db, e.dossierId, f)
        && QuotedFor(e.perFacet, f).Some? then rest + QuotedFor(e.perFacet, f).value.units else rest
  }

  /** The estimate counts every asked facet, no other, at its latest level and the method's units. */
  predicate EstimateStands(db: Db, e: Estimate) {
    && |e.perFacet| == |FacetIds(db, e.dossierId)|
    && (forall f | f in FACETS && Asked(db, e.dossierId, f) :: CountedAsAssessed(db, e, f))
    && e.units == CountUnits(db, e, FACETS)
  }

  /**
   The corpus moved under a named row: a present artifact's record taken back, horizon passed, or refutation, by
   the build.
   */
  ghost predicate Moved(db: Db, coverageId: string, e: Evidence, at: Instant) {
    && coverageId in db.coverage && e.coverageId == coverageId && e.assessment == Present
    && var assessed := db.coverage[coverageId].assessedAt;
       || (exists r | r in db.retractions ::
             assessed < r.issuedAt <= at && RestsOn(db.inputs, e.artifactId, r.recordId))
       || (e.artifactId in db.artifacts && HorizonPassed(db.artifacts[e.artifactId], assessed, at))
       || RefutedBetween(db, e.artifactId, assessed, at)
  }

  predicate HorizonPassed(a: Artifact, assessed: Instant, at: Instant) {
    a.horizonEndsAt.Some? && assessed < a.horizonEndsAt.value <= at
  }

  predicate RefutedBetween(db: Db, artifact: string, assessed: Instant, at: Instant) {
    exists v | v in db.validations ::
      db.validations[v].artifactId == artifact && db.validations[v].falsified
        && assessed < db.validations[v].validatedAt <= at
  }

  function EstimateOf(db: Db, r: Release): Option<Estimate> {
    if r.quotationId in db.quotations && db.quotations[r.quotationId].estimateId in db.estimates
    then Some(db.estimates[db.quotations[r.quotationId].estimateId])
    else None
  }

  /** One named assessment: of the release's dossier, the latest at or before the build, at the quoted level. */
  predicate NamedRight(db: Db, r: Release, coverageId: string) {
    && coverageId in db.coverage && db.coverage[coverageId].facetId in db.facets
    && var f := db.facets[db.coverage[coverageId].facetId];
       && f.dossierId == r.dossierId
       && LatestBy(db, coverageId, r.dossierId, f.facet, r.builtAt)
       && EstimateOf(db, r).Some?
       && QuotedFor(EstimateOf(db, r).value.perFacet, f.facet).Some?
       && QuotedFor(EstimateOf(db, r).value.perFacet, f.facet).value.level == db.coverage[coverageId].level
  }

  predicate FacetNamed(db: Db, releaseId: string, facetId: string) {
    exists n | n in db.namings :: n.releaseId == releaseId && n.coverageId in db.coverage
      && db.coverage[n.coverageId].facetId == facetId
  }

  /** Every naming is right and every facet of the dossier is named. */
  predicate ReleaseStands(db: Db, id: string)
    requires id in db.releases
  {
    && (forall n | n in db.namings && n.releaseId == id :: NamedRight(db, db.releases[id], n.coverageId))
    && forall f | f in FacetIds(db, db.releases[id].dossierId) :: FacetNamed(db, id, f)
  }

  ghost predicate CorpusStill(db: Db, id: string)
    requires id in db.releases
  {
    forall n, k | n in db.namings && n.releaseId == id && k in db.evidence ::
      !Moved(db, n.coverageId, db.evidence[k], db.releases[id].builtAt)
  }

  predicate RestsOnPresent(db: Db, c: Conclusion) {
    exists n, k | n in db.namings && k in db.evidence ::
      && n.releaseId == c.releaseId && n.coverageId in db.coverage && db.coverage[n.coverageId].facetId in db.facets
      && db.facets[db.coverage[n.coverageId].facetId].facet == c.facet
      && db.evidence[k].coverageId == n.coverageId && db.evidence[k].artifactId == c.artifactId
      && db.evidence[k].assessment == Present
  }

  predicate ReadsSomething(db: Db, artifact: string) { exists i | i in db.inputs :: i.artifact == artifact }

  /** An artifact claims no operation that an input does not carry. */
  predicate PermittedBy(db: Db, i: Input, rights: set<string>) {
    i.artifact in db.artifacts && db.artifacts[i.artifact].rights <= rights
  }

  /** The deferred triggers one inserted row fires, against the rows as they stand at commit. */
  ghost predicate Deferred(db: Db, row: Row) {
    match row
    case ArtifactRow(id, _) => ReadsSomething(db, id)
    case InputRow(i, _, rights) => PermittedBy(db, i, rights)
    case RetractionRow(r) => RetractionLeavesStanding(db, r)
    case ValidationRow(_, v) => ValidationLeavesStanding(db, v)
    case CoverageRow(id, _) => id in db.coverage && CoverageMatches(db, id)
    case EvidenceRow(_, e) => Earned(db, e) && CoverageMatches(db, e.coverageId)
    case EstimateRow(_, e) => EstimateStands(db, e)
    case ReleaseRow(id, _) => id in db.releases && ReleaseStands(db, id) && CorpusStill(db, id)
    case NamingRow(n) => n.releaseId in db.releases && ReleaseStands(db, n.releaseId) && CorpusStill(db, n.releaseId)
    case ConclusionRow(_, c) => RestsOnPresent(db, c)
    case _ => true
  }

  ghost predicate Commits(db: Db, rows: seq<Row>) {
    && InsertAll(db, rows).Some?
    && forall row | row in rows :: Deferred(InsertAll(db, rows).value, row)
  }

  ghost function After(db: Db, rows: seq<Row>): Db {
    if Commits(db, rows) then InsertAll(db, rows).value else db
  }

  /* ---- The triggers as they run ---- */

  method CheckEvidence(db: Db, e: Evidence) returns (ok: bool)
    ensures ok <==> Earned(db, e)
  {
    if e.coverageId !in db.coverage || e.artifactId !in db.artifacts { return false; }
    var expected := ExpectedAssessment(db, e.coverageId, e.artifactId);
    return expected == Some(e.assessment);
  }

  /** Recompute every standing row the retracted record reaches. */
  method CheckRetraction(db: Db, r: Retraction) returns (ok: bool)
    ensures ok <==> RetractionLeavesStanding(db, r)
  {
    var readers := Readers(db.inputs, r.recordId);
    ok := CheckStanding(db, readers);
  }

  /** Recompute every standing row over one of these artifacts. */
  method CheckStanding(db: Db, artifacts: set<string>) returns (ok: bool)
    ensures ok <==> forall k | k in db.evidence && db.evidence[k].artifactId in artifacts :: Earned(db, db.evidence[k])
  {
    hide Earned;
    var standing := set k | k in db.evidence && db.evidence[k].artifactId in artifacts;
    ghost var all := standing;
    while standing != {}
      invariant standing <= all
      invariant forall k | k in all - standing :: Earned(db, db.evidence[k])
      decreases standing
    {
      var k :| k in standing;
      var earned := CheckEvidence(db, db.evidence[k]);
      if !earned { return false; }
      standing := standing - {k};
    }
    return true;
  }

  /** The estimate loop: facet by facet, each at its assessed level, counted into a running total. */
  method CheckEstimate(db: Db, e: Estimate) returns (ok: bool)
    ensures ok <==> EstimateStands(db, e)
  {
    hide CountedAsAssessed;
    if |e.perFacet| != |FacetIds(db, e.dossierId)| { return false; }
    var counted := 0;
    for i := 0 to |FACETS|
      invariant counted == CountUnits(db, e, FACETS[..i])
      invariant forall f | f in FACETS[..i] && Asked(db, e.dossierId, f) :: CountedAsAssessed(db, e, f)
    {
      var f := FACETS[i];
      assert FACETS[..i + 1][..i] == FACETS[..i];
      if Asked(db, e.dossierId, f) {
        if !CountedAsAssessed(db, e, f) { return false; }
        CountedIsQuoted(db, e, f);
        counted := counted + QuotedFor(e.perFacet, f).value.units;
      }
    }
    assert FACETS[..|FACETS|] == FACETS;
    return e.units == counted;
  }

  lemma CountedIsQuoted(db: Db, e: Estimate, facet: string)
    requires CountedAsAssessed(db, e, facet)
    ensures QuotedFor(e.perFacet, facet).Some?
  {
  }

  method AnyMoved(db: Db, coverageId: string, at: Instant) returns (moved: bool)
    ensures moved <==> exists k | k in db.evidence :: Moved(db, coverageId, db.evidence[k], at)
  {
    moved := false;
    if coverageId !in db.coverage { return; }
    var assessed := db.coverage[coverageId].assessedAt;
    var present := set k | k in db.evidence && db.evidence[k].coverageId == coverageId
      && db.evidence[k].assessment == Present;
    ghost var all := present;
    while present != {}
      invariant present <= all
      invariant forall k | k in all - present :: !Moved(db, coverageId, db.evidence[k], at)
      decreases present
    {
      var k :| k in present;
      var e := db.evidence[k];
      var records := RecordsUnder(db.inputs, e.artifactId);
      var takenBack := exists r | r in db.retractions :: assessed < r.issuedAt <= at && r.recordId in records;
      if takenBack || (e.artifactId in db.artifacts && HorizonPassed(db.artifacts[e.artifactId], assessed, at))
         || RefutedBetween(db, e.artifactId, assessed, at)
      {
        return true;
      }
      present := present - {k};
    }
  }

  /** The release loop over what it names, then over the facets of its dossier. */
  method CheckRelease(db: Db, id: string) returns (ok: bool)
    requires id in db.releases
    ensures ok <==> ReleaseStands(db, id) && CorpusStill(db, id)
  {
    hide Moved, NamedRight, FacetNamed;
    var r := db.releases[id];
    var named := set n | n in db.namings && n.releaseId == id;
    ghost var all := named;
    while named != {}
      invariant named <= all
      invariant forall n | n in all - named :: NamedRight(db, r, n.coverageId)
      invariant forall n, k | n in all - named && k in db.evidence ::
        !Moved(db, n.coverageId, db.evidence[k], r.builtAt)
      decreases named
    {
      var n :| n in named;
      if !NamedRight(db, r, n.coverageId) { return false; }
      var moved := AnyMoved(db, n.coverageId, r.builtAt);
      if moved { return false; }
      named := named - {n};
    }
    return forall f | f in FacetIds(db, r.dossierId) :: FacetNamed(db, id, f);
  }

  method CheckRow(db: Db, row: Row) returns (ok: bool)
    ensures ok <==> Deferred(db, row)
  {
    match row
    case ArtifactRow(id, _) => ok := ReadsSomething(db, id);
    case InputRow(i, _, rights) => ok := PermittedBy(db, i, rights);
    case RetractionRow(r) => ok := CheckRetraction(db, r);
    case ValidationRow(_, v) => ok := CheckStanding(db, {v.artifactId});
    case CoverageRow(id, _) => ok := id in db.coverage && CoverageMatches(db, id);
    case EvidenceRow(_, e) =>
      ok := CheckEvidence(db, e);
      ok := ok && CoverageMatches(db, e.coverageId);
    case EstimateRow(_, e) => ok := CheckEstimate(db, e);
    case ReleaseRow(id, _) =>
      if id in db.releases { ok := CheckRelease(db, id); } else { ok := false; }
    case NamingRow(n) =>
      if n.releaseId in db.releases { ok := CheckRelease(db, n.releaseId); } else { ok := false; }
    case ConclusionRow(_, c) => ok := RestsOnPresent(db, c);
    case _ => ok := true;
  }

  /** The ledger: its tables, and transactions over them. */
  class Ledger {
    var db: Db

    constructor ()
      ensures db == EMPTY
    {
      db := EMPTY;
    }

    /** All the rows, every check passed, or none of them. */
    method Transact(rows: seq<Row>) returns (committed: bool)
      modifies this
      ensures committed <==> Commits(old(db), rows)
      ensures db == After(old(db), rows)
    {
      var next := db;
      for i := 0 to |rows|
        invariant db == old(db)
        invariant InsertAll(db, rows) == InsertAll(next, rows[i..])
      {
        var inserted := Insert(next, rows[i]);
        assert rows[i..][1..] == rows[i + 1..];
        if inserted.None? { return false; }
        next := inserted.value;
      }
      for i := 0 to |rows|
        invariant db == old(db)
        invariant forall j | 0 <= j < i :: Deferred(next, rows[j])
      {
        var ok := CheckRow(next, rows[i]);
        if !ok { return false; }
      }
      db := next;
      return true;
    }
  }
}
