/**
 Estimates, releases and conclusions keep, under every later transaction, what their commit checked.
 */
module DossierReleases {
  import opened Ancestry
  import opened DossierTables
  import opened DossierLedger
  import opened DossierGrowth

  lemma FacetsFixed(db: Db, db': Db, dossier: string)
    requires Grew(db, db') && NotBackdated(db, db')
    requires (exists e | e in db.estimates :: db.estimates[e].dossierId == dossier)
      || (exists r | r in db.releases :: db.releases[r].dossierId == dossier)
    ensures FacetIds(db', dossier) == FacetIds(db, dossier)
    ensures forall f :: Asked(db', dossier, f) <==> Asked(db, dossier, f)
  {
    forall f | f in db'.facets && db'.facets[f].dossierId == dossier ensures f in db.facets {}
  }

  /** The latest assessment at or before a count or a build stays the latest. */
  lemma LatestStays(db: Db, db': Db, id: string, dossier: string, facet: string, at: Instant)
    requires Grew(db, db') && Keyed(db) && LatestBy(db, id, dossier, facet, at)
    requires forall k | k in db'.coverage && k !in db.coverage && CoversFacet(db', k, dossier, facet) ::
      at < db'.coverage[k].assessedAt
    ensures LatestBy(db', id, dossier, facet, at)
  {
    forall k | k in db'.coverage && CoversFacet(db', k, dossier, facet) && db'.coverage[k].assessedAt <= at
      ensures db'.coverage[k].assessedAt <= db'.coverage[id].assessedAt
    {
      assert k in db.coverage && CoversFacet(db, k, dossier, facet);
    }
  }

  lemma {:induction false} CountUnitsSame(db: Db, db': Db, e: Estimate, facets: seq<string>)
    requires forall f :: Asked(db', e.dossierId, f) <==> Asked(db, e.dossierId, f)
    ensures CountUnits(db', e, facets) == CountUnits(db, e, facets)
  {
    if facets != [] { CountUnitsSame(db, db', e, facets[..|facets| - 1]); }
  }

  lemma EstimateKept(db: Db, db': Db, k: string)
    requires Grew(db, db') && NotBackdated(db, db') && Keyed(db) && k in db.estimates
      && EstimateStands(db, db.estimates[k])
    ensures EstimateStands(db', db.estimates[k])
  {
    hide Grew, Keyed;
    var e := db.estimates[k];
    FacetsFixed(db, db', e.dossierId);
    CountUnitsSame(db, db', e, FACETS);
    forall f | f in FACETS && Asked(db', e.dossierId, f) ensures CountedAsAssessed(db', e, f) {
      CountKept(db, db', k, f);
    }
  }

  lemma CountKept(db: Db, db': Db, k: string, f: string)
    requires Grew(db, db') && NotBackdated(db, db') && Keyed(db) && k in db.estimates
      && CountedAsAssessed(db, db.estimates[k], f)
    ensures CountedAsAssessed(db', db.estimates[k], f)
  {
    hide LatestBy, Keyed;
    var e := db.estimates[k];
    var id :| id in db.coverage && LatestBy(db, id, e.dossierId, f, e.estimatedAt) && QuotedFor(e.perFacet, f).Some?
      && QuotedFor(e.perFacet, f).value.level == db.coverage[id].level
      && QuotedFor(e.perFacet, f).value.units == Units(db.coverage[id].level);
    LatestStays(db, db', id, e.dossierId, f, e.estimatedAt);
    assert db'.coverage[id] == db.coverage[id];
  }

  lemma NamedKept(db: Db, db': Db, k: string, coverageId: string)
    requires Grew(db, db') && NotBackdated(db, db') && Keyed(db) && Priced(db) && k in db.releases
    requires NamedRight(db, db.releases[k], coverageId)
    ensures NamedRight(db', db.releases[k], coverageId)
  {
    hide LatestBy, Keyed;
    var r := db.releases[k];
    LatestStays(db, db', coverageId, r.dossierId, db.facets[db.coverage[coverageId].facetId].facet, r.builtAt);
  }

  /** A release that stood still stands: no later transaction changes what it named or what it had to name. */
  lemma ReleaseKept(db: Db, db': Db, rows: seq<Row>, k: string)
    requires Grew(db, db') && Explained(db, db', rows) && NotBackdated(db, db') && Keyed(db) && Priced(db)
    requires forall row | row in rows :: Deferred(db', row)
    requires k in db.releases && ReleaseStands(db, k)
    ensures ReleaseStands(db', k)
  {
    hide NamedRight, Keyed, Priced;
    if n :| n in db'.namings && n !in db.namings && n.releaseId == k {
      assert Deferred(db', NamingRow(n));
    } else {
      forall n | n in db'.namings && n.releaseId == k ensures NamedRight(db', db.releases[k], n.coverageId) {
        NamedKept(db, db', k, n.coverageId);
      }
      FacetsFixed(db, db', db.releases[k].dossierId);
      forall f | f in FacetIds(db', db.releases[k].dossierId) ensures FacetNamed(db', k, f) {
        assert FacetNamed(db, k, f);
      }
    }
  }

  lemma EstimatesKept(db: Db, db': Db, rows: seq<Row>)
    requires Grew(db, db') && Explained(db, db', rows) && NotBackdated(db, db') && Keyed(db)
    requires forall row | row in rows :: Deferred(db', row)
    requires EstimatesStand(db)
    ensures EstimatesStand(db')
  {
    hide EstimateStands, NotBackdated, Keyed, CorpusStill, CoverageMatches, ReleaseStands, RetractionLeavesStanding,
      ValidationLeavesStanding, Earned, RestsOnPresent;
    forall k | k in db'.estimates ensures EstimateStands(db', db'.estimates[k]) {
      if k in db.estimates {
        EstimateKept(db, db', k);
      } else {
        assert Deferred(db', EstimateRow(k, db'.estimates[k]));
      }
    }
  }

  lemma ReleasesKept(db: Db, db': Db, rows: seq<Row>)
    requires Grew(db, db') && Explained(db, db', rows) && NotBackdated(db, db') && Keyed(db) && Priced(db)
    requires forall row | row in rows :: Deferred(db', row)
    requires ReleasesStand(db)
    ensures ReleasesStand(db')
  {
    hide ReleaseStands, NotBackdated, Keyed, Priced, CorpusStill, CoverageMatches, EstimateStands,
      RetractionLeavesStanding, ValidationLeavesStanding, Earned, RestsOnPresent;
    forall k | k in db'.releases ensures ReleaseStands(db', k) {
      if k in db.releases {
        ReleaseKept(db, db', rows, k);
      } else {
        assert Deferred(db', ReleaseRow(k, db'.releases[k]));
      }
    }
  }

  lemma ConclusionsKept(db: Db, db': Db, rows: seq<Row>)
    requires Grew(db, db') && Explained(db, db', rows)
    requires forall row | row in rows :: Deferred(db', row)
    requires ConclusionsRest(db)
    ensures ConclusionsRest(db')
  {
    forall k | k in db'.conclusions ensures RestsOnPresent(db', db'.conclusions[k]) {
      if k in db.conclusions {
        ConclusionStays(db, db', db.conclusions[k]);
      } else {
        assert Deferred(db', ConclusionRow(k, db'.conclusions[k]));
      }
    }
  }

  lemma ConclusionStays(db: Db, db': Db, c: Conclusion)
    requires Grew(db, db') && RestsOnPresent(db, c)
    ensures RestsOnPresent(db', c)
  {
    var n, k :| n in db.namings && k in db.evidence
      && n.releaseId == c.releaseId && n.coverageId in db.coverage && db.coverage[n.coverageId].facetId in db.facets
      && db.facets[db.coverage[n.coverageId].facetId].facet == c.facet
      && db.evidence[k].coverageId == n.coverageId && db.evidence[k].artifactId == c.artifactId
      && db.evidence[k].assessment == Present;
    assert n in db'.namings && k in db'.evidence;
  }
}
