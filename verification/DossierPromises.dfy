/**
 What the ledger's readers may rely on: releases name one assessment per facet for ever, amounts are what was
 built, levels and conclusions are earned.
 */
module DossierPromises {
  import opened Basics
  import opened Ancestry
  import opened DossierTables
  import opened DossierLedger
  import opened DossierGrowth
  import opened DossierEvidence
  import opened DossierReleases
  import opened DossierRuns

  ghost predicate NamedFor(db: Db, releaseId: string, facet: string, coverageId: string)
    requires releaseId in db.releases
  {
    Naming(releaseId, coverageId) in db.namings && CoversFacet(db, coverageId, db.releases[releaseId].dossierId, facet)
  }

  /** A release names exactly one assessment per asked facet: the latest at or before its build, at the quoted level. */
  lemma ReleaseNamesOnePerFacet(db: Db, id: string, facet: string)
    requires Books(db) && id in db.releases && Asked(db, db.releases[id].dossierId, facet)
    ensures exists c :: NamedFor(db, id, facet, c)
    ensures forall c, d | NamedFor(db, id, facet, c) && NamedFor(db, id, facet, d) :: c == d
    ensures forall c | NamedFor(db, id, facet, c) ::
      && LatestBy(db, c, db.releases[id].dossierId, facet, db.releases[id].builtAt)
      && EstimateOf(db, db.releases[id]).Some? && QuotedFor(EstimateOf(db, db.releases[id]).value.perFacet, facet).Some?
      && QuotedFor(EstimateOf(db, db.releases[id]).value.perFacet, facet).value.level == db.coverage[c].level
  {
    hide Keyed, Priced, InputsEarlier, EvidenceStands, CoverageStands, EstimatesStand, ConclusionsRest;
    var r := db.releases[id];
    assert ReleaseStands(db, id);
    var f :| f in db.facets && db.facets[f] == Facet(r.dossierId, facet);
    assert FacetNamed(db, id, f);
    var n :| n in db.namings && n.releaseId == id && n.coverageId in db.coverage
      && db.coverage[n.coverageId].facetId == f;
    assert NamedFor(db, id, facet, n.coverageId);
    forall c | NamedFor(db, id, facet, c) ensures NamedRight(db, r, c) {
      var m := Naming(id, c);
      assert m in db.namings && m.releaseId == id && NamedRight(db, r, m.coverageId);
    }
  }

  /** What a release names is settled at its commit: no later transaction adds to it or takes from it. */
  lemma NamingIsSettled(db: Db, rows: seq<Row>, id: string, c: string)
    requires Books(db) && id in db.releases
    ensures id in After(db, rows).releases
    ensures Naming(id, c) in After(db, rows).namings <==> Naming(id, c) in db.namings
  {
    hide Keyed, Priced, InputsEarlier, EvidenceStands, CoverageStands, EstimatesStand, ConclusionsRest, ReleasesStand,
      UniqueRows, After;
    var db' := After(db, rows);
    TransactionKeeps(db, rows);
    if Naming(id, c) in db'.namings {
      var f := NamedFacet(db', id, c);
      assert NamedFor(db', id, f, c);
      ReleaseNamesOnePerFacet(db', id, f);
      AskedBefore(db, rows, id, f);
      ReleaseNamesOnePerFacet(db, id, f);
      var d :| NamedFor(db, id, f, d);
      assert NamedFor(db', id, f, d);
    }
  }

  /** Over every run: once committed, a release stays, as it was written, and names forever just what it named then. */
  lemma {:induction false} NamingIsForever(transactions: seq<seq<Row>>, n: nat, id: string, c: string)
    requires n <= |transactions| && id in Run(transactions[..n]).releases
    ensures var was, now := Run(transactions[..n]), Run(transactions);
      && id in now.releases && now.releases[id] == was.releases[id]
      && (Naming(id, c) in now.namings <==> Naming(id, c) in was.namings)
      && (c in was.coverage ==> c in now.coverage && now.coverage[c] == was.coverage[c])
  {
    hide Books, After;
    if n == |transactions| {
      assert transactions[..n] == transactions;
    } else {
      var before := transactions[..|transactions| - 1];
      assert before[..n] == transactions[..n];
      NamingIsForever(before, n, id, c);
      EveryRunKeeps(before);
      NamingIsSettled(Run(before), transactions[|transactions| - 1], id, c);
      TransactionKeeps(Run(before), transactions[|transactions| - 1]);
    }
  }

  lemma NamedFacet(db: Db, id: string, c: string) returns (f: string)
    requires ReleasesStand(db) && id in db.releases && Naming(id, c) in db.namings
    ensures CoversFacet(db, c, db.releases[id].dossierId, f) && Asked(db, db.releases[id].dossierId, f)
  {
    var n := Naming(id, c);
    assert ReleaseStands(db, id) && NamedRight(db, db.releases[id], n.coverageId);
    f := db.facets[db.coverage[c].facetId].facet;
  }

  lemma AskedBefore(db: Db, rows: seq<Row>, id: string, facet: string)
    requires Books(db) && id in db.releases && Asked(After(db, rows), db.releases[id].dossierId, facet)
    ensures Asked(db, db.releases[id].dossierId, facet)
  {
    hide EvidenceStands, CoverageStands, EstimatesStand, ConclusionsRest, ReleasesStand, UniqueRows, Keyed, Priced,
      InputsEarlier;
    if Commits(db, rows) {
      InsertAllKeeps(db, rows);
      FacetsFixed(db, InsertAll(db, rows).value, db.releases[id].dossierId);
    }
  }

  /** The units of the levels a release was built on. */
  ghost function NamedUnits(db: Db, id: string, facets: seq<string>): int
    requires id in db.releases
  {
    if facets == [] then 0
    else
      var f := facets[|facets| - 1];
      var rest := NamedUnits(db, id, facets[..|facets| - 1]);
      if c :| NamedFor(db, id, f, c) then
        rest + (match db.coverage[c].level case NoLevel => 1 case Thin => 2 case Supported => 3)
      else rest
  }

  /** The quoted amount is the policy's rate times the units of the levels the release was built on. */
  lemma QuotedAmountIsWhatWasBuilt(db: Db, id: string)
    requires Books(db) && id in db.releases
    ensures db.releases[id].quotationId in db.quotations
    ensures
      var q := db.quotations[db.releases[id].quotationId];
      && q.policyId in db.policies
      && q.amountMinor == NamedUnits(db, id, FACETS) * db.policies[q.policyId].unitPriceMinor
  {
    hide Keyed, InputsEarlier, EvidenceStands, CoverageStands, ConclusionsRest, ReleasesStand, UniqueRows,
      EstimateStands;
    var r := db.releases[id];
    var q := db.quotations[r.quotationId];
    assert QuotationAllowed(db, q);
    var e := db.estimates[q.estimateId];
    assert EstimateStands(db, e);
    EstimateParts(db, e);
    CountIsNamed(db, id, e, FACETS);
  }

  lemma EstimateParts(db: Db, e: Estimate)
    requires EstimateStands(db, e)
    ensures forall f | f in FACETS && Asked(db, e.dossierId, f) :: CountedAsAssessed(db, e, f)
    ensures e.units == CountUnits(db, e, FACETS)
  {
  }

  lemma {:induction false} CountIsNamed(db: Db, id: string, e: Estimate, facets: seq<string>)
    requires Books(db) && id in db.releases && EstimateOf(db, db.releases[id]) == Some(e)
      && e.dossierId == db.releases[id].dossierId
    requires forall f | f in facets && Asked(db, e.dossierId, f) :: CountedAsAssessed(db, e, f)
    ensures CountUnits(db, e, facets) == NamedUnits(db, id, facets)
  {
    hide Books, LatestBy;
    if facets != [] {
      var f := facets[|facets| - 1];
      CountIsNamed(db, id, e, facets[..|facets| - 1]);
      if Asked(db, e.dossierId, f) {
        ReleaseNamesOnePerFacet(db, id, f);
        var c :| NamedFor(db, id, f, c);
        assert CountedAsAssessed(db, e, f);
      } else {
        forall c ensures !NamedFor(db, id, f, c) {}
      }
    }
  }

  ghost predicate EarnsPresent(db: Db, coverageId: string, artifactId: string) {
    coverageId in db.coverage && artifactId in db.artifacts && Expected(db, coverageId, artifactId) == Some(Present)
  }

  /** Distinct rows with distinct names are as many as their names. */
  lemma {:induction false} ImageCount(rows: set<string>, name: map<string, string>)
    requires rows <= name.Keys && forall j, k | j in rows && k in rows && j != k :: name[j] != name[k]
    ensures |set k | k in rows :: name[k]| == |rows|
  {
    if rows != {} {
      var k :| k in rows;
      ImageCount(rows - {k}, name);
      assert (set j | j in rows :: name[j]) == (set j | j in rows - {k} :: name[j]) + {name[k]};
    }
  }

  /**
   A conclusion rests on an artifact that earns PRESENT in the one assessment its release names for the facet, the
   latest by its build.
   */
  lemma ConclusionIsEarned(db: Db, k: string)
    requires Inv(db) && k in db.conclusions
    ensures var c := db.conclusions[k];
      && c.releaseId in db.releases && (exists id :: NamedFor(db, c.releaseId, c.facet, id))
      && forall id | NamedFor(db, c.releaseId, c.facet, id) ::
           EarnsPresent(db, id, c.artifactId)
             && LatestBy(db, id, db.releases[c.releaseId].dossierId, c.facet, db.releases[c.releaseId].builtAt)
  {
    hide Expected, LatestBy, InputsEarlier, UniqueRows, EstimatesStand, CoverageStands, Priced, Keyed, EvidenceStands,
      ReleasesStand;
    var c := db.conclusions[k];
    assert c.releaseId in db.releases by { ConclusionOfRelease(db, k); }
    assert RestsOnPresent(db, c);
    var n, e :| n in db.namings && e in db.evidence && n.releaseId == c.releaseId && n.coverageId in db.coverage
      && db.coverage[n.coverageId].facetId in db.facets && db.facets[db.coverage[n.coverageId].facetId].facet == c.facet
      && db.evidence[e].coverageId == n.coverageId && db.evidence[e].artifactId == c.artifactId
      && db.evidence[e].assessment == Present;
    assert Earned(db, db.evidence[e]) by { StandsEarned(db, e); }
    assert n == Naming(c.releaseId, n.coverageId);
    var f := NamedFacet(db, c.releaseId, n.coverageId);
    assert NamedFor(db, c.releaseId, c.facet, n.coverageId);
    ReleaseNamesOnePerFacet(db, c.releaseId, c.facet);
  }

  lemma ConclusionOfRelease(db: Db, k: string)
    requires Keyed(db) && k in db.conclusions
    ensures db.conclusions[k].releaseId in db.releases
  {
  }

  lemma StandsEarned(db: Db, e: string)
    requires EvidenceStands(db) && e in db.evidence
    ensures Earned(db, db.evidence[e])
  {
  }

  /**
   Overtaking inputs do go in: nothing refuses an input added to an artifact already cited, stated with rights
   as wide as the artifact's, and if the added record had been corrected by the assessment, the standing row is no
   longer what its artifact earns.
   */
  lemma LateInputUnsettlesEvidence(db: Db, k: string, r: Retraction, knownAt: Instant, rights: set<string>)
    requires Inv(db) && k in db.evidence && db.evidence[k].assessment == Present
      && db.evidence[k].coverageId in db.coverage
    requires r in db.retractions && r.kind == Correction
      && r.issuedAt <= db.coverage[db.evidence[k].coverageId].assessedAt
    requires InputAllowed(db, Input(db.evidence[k].artifactId, Source(r.recordId)), knownAt)
    requires PermittedBy(db, Input(db.evidence[k].artifactId, Source(r.recordId)), rights)
    ensures
      var rows := [InputRow(Input(db.evidence[k].artifactId, Source(r.recordId)), knownAt, rights)];
      Commits(db, rows) && !Frozen(db, rows) && !EvidenceStands(After(db, rows))
  {
    hide Keyed, Priced, InputsEarlier, UniqueRows, CoverageStands, EstimatesStand, ReleasesStand, ConclusionsRest,
      Frozen, InsertAll;
    var e := db.evidence[k];
    var i := Input(e.artifactId, Source(r.recordId));
    var rows := [InputRow(i, knownAt, rights)];
    OneRow(db, rows[0]);
    var db' := Add(db, rows[0]);
    CorrectedNow(db, k, r);
    NotFrozen(db, k, i, knownAt, rights);
  }

  lemma OneRow(db: Db, row: Row)
    requires FreshKey(db, row) && Allowed(db, row)
    ensures InsertAll(db, [row]) == Some(Add(db, row))
  {
    assert [row][1..] == [];
  }

  lemma CorrectedNow(db: Db, k: string, r: Retraction)
    requires k in db.evidence && db.evidence[k].assessment == Present && db.evidence[k].coverageId in db.coverage
    requires r in db.retractions && r.kind == Correction
      && r.issuedAt <= db.coverage[db.evidence[k].coverageId].assessedAt
    requires Earned(db, db.evidence[k])
    ensures !Earned(db.(inputs := db.inputs + {Input(db.evidence[k].artifactId, Source(r.recordId))}), db.evidence[k])
  {
    var e := db.evidence[k];
    var db' := db.(inputs := db.inputs + {Input(e.artifactId, Source(r.recordId))});
    RestsOnStep(db'.inputs, e.artifactId, r.recordId);
    assert TakenBack(db', e.artifactId, db.coverage[e.coverageId].assessedAt, Correction);
  }

  lemma NotFrozen(db: Db, k: string, i: Input, knownAt: Instant, rights: set<string>)
    requires k in db.evidence && i.artifact == db.evidence[k].artifactId
    ensures !Frozen(db, [InputRow(i, knownAt, rights)])
  {
    var rows := [InputRow(i, knownAt, rights)];
    assert Chain(db.inputs, [i.artifact]);
    assert Beneath(db.inputs, i.artifact, i.artifact);
    assert rows[0] == InputRow(i, knownAt, rights);
    assert InputRow(i, knownAt, rights) in rows;
  }

  /** Over every run: no artifact is its own ancestor, at any depth. */
  lemma AncestryIsAcyclic(transactions: seq<seq<Row>>, p: seq<string>)
    requires Chain(Run(transactions).inputs, p) && |p| > 1
    ensures p[0] != p[|p| - 1]
  {
    hide Run;
    EveryRunKeeps(transactions);
    var db := Run(transactions);
    NoArtifactIsItsOwnAncestor(db.inputs, map a | a in db.artifacts :: db.artifacts[a].computedAt, p);
  }

  /** A retraction issued after every assessment that rests on its record is not yet known to them, and goes in. */
  lemma LaterRetractionGoesIn(db: Db, r: Retraction)
    requires EvidenceStands(db) && FreshKey(db, RetractionRow(r))
    requires forall k | k in db.evidence && db.evidence[k].coverageId in db.coverage
      && RestsOn(db.inputs, db.evidence[k].artifactId, r.recordId) ::
      db.coverage[db.evidence[k].coverageId].assessedAt < r.issuedAt
    ensures Commits(db, [RetractionRow(r)])
  {
    hide RestsOn;
    OneRow(db, RetractionRow(r));
    var db' := Add(db, RetractionRow(r));
    forall k | k in db'.evidence && RestsOn(db'.inputs, db'.evidence[k].artifactId, r.recordId)
      ensures Earned(db', db'.evidence[k]) {
      var e := db.evidence[k];
      assert Earned(db, e);
      var at := db.coverage[e.coverageId].assessedAt;
      forall kind: Kind ensures TakenBack(db', e.artifactId, at, kind) <==> TakenBack(db, e.artifactId, at, kind) {}
      assert forall j | j in db.evidence ::
        Disagrees(db', e.coverageId, e.artifactId, db.evidence[j]) <==>
        Disagrees(db, e.coverageId, e.artifactId, db.evidence[j]);
      assert Refuted(db', e.artifactId, at) <==> Refuted(db, e.artifactId, at);
    }
  }
}
