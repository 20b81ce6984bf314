/**
 What an artifact earns (src/db/dossierLedger.ts): each assessment by its own condition, nothing read that is dated
 after the assessment, and what has moved by a later build.
 */
module DossierEarned {
  import opened Basics
  import opened Ancestry
  import opened DossierTables
  import opened DossierLedger
  import opened DossierGrowth
  import opened DossierRuns
  import opened DossierPromises
  import opened DossierLateInput
  import opened DossierReleaseRun

  /* ---- Each assessment, by its own condition ---- */

  /** A corrected record beneath it, a neighbour that claims otherwise of its subject, or a standing refutation. */
  ghost predicate Contradicted(db: Db, id: string, artifact: string)
    requires id in db.coverage && artifact in db.artifacts
  {
    var at := db.coverage[id].assessedAt;
    || (exists r | r in db.retractions ::
          r.kind == Correction && r.issuedAt <= at && RestsOn(db.inputs, artifact, r.recordId))
    || (exists k, other | k in db.evidence && db.evidence[k].coverageId == id && other == db.evidence[k].artifactId
          && other in db.artifacts ::
          other != artifact && db.artifacts[other].subject == db.artifacts[artifact].subject
          && db.artifacts[other].claim != db.artifacts[artifact].claim)
    || (exists v | v in db.validations && db.validations[v].artifactId == artifact ::
          db.validations[v].falsified && StandingAt(db, v, at))
  }

  /** Of all records of the same artifact dated by the instant, none is later than this one. */
  ghost predicate StandingAt(db: Db, v: string, at: Instant)
    requires v in db.validations
  {
    db.validations[v].validatedAt <= at
    && forall w | w in db.validations && db.validations[w].artifactId == db.validations[v].artifactId ::
         db.validations[w].validatedAt <= db.validations[v].validatedAt || db.validations[w].validatedAt > at
  }

  /** Its horizon is behind the assessment, or a record beneath it was withdrawn by then. */
  ghost predicate Aged(db: Db, id: string, artifact: string)
    requires id in db.coverage && artifact in db.artifacts
  {
    var at := db.coverage[id].assessedAt;
    || (db.artifacts[artifact].horizonEndsAt.Some? && db.artifacts[artifact].horizonEndsAt.value < at)
    || (exists r | r in db.retractions ::
          r.kind == Withdrawal && r.issuedAt <= at && RestsOn(db.inputs, artifact, r.recordId))
  }

  /** What is computed in time earns exactly one assessment, and which one is said without any order of asking. */
  lemma EarnsExactly(db: Db, id: string, artifact: string)
    requires id in db.coverage && artifact in db.artifacts
    ensures var e := Expected(db, id, artifact);
      var inTime := db.artifacts[artifact].computedAt <= db.coverage[id].assessedAt;
      var deliverable := "customer_delivery" in db.artifacts[artifact].rights;
      && (e == None <==> !inTime)
      && (e == Some(Disallowed) <==> inTime && !deliverable)
      && (e == Some(Conflicting) <==> inTime && deliverable && Contradicted(db, id, artifact))
      && (e == Some(Stale) <==>
            inTime && deliverable && !Contradicted(db, id, artifact) && Aged(db, id, artifact))
      && (e == Some(Present) <==>
            inTime && deliverable && !Contradicted(db, id, artifact) && !Aged(db, id, artifact))
  {
    hide RestsOn;
    var at := db.coverage[id].assessedAt;
    assert Refuted(db, artifact, at) <==> exists v | v in db.validations && db.validations[v].artifactId == artifact ::
      db.validations[v].falsified && StandingAt(db, v, at);
    assert (exists k | k in db.evidence :: Disagrees(db, id, artifact, db.evidence[k])) ==>
      Contradicted(db, id, artifact) by {
      if k :| k in db.evidence && Disagrees(db, id, artifact, db.evidence[k]) {
        var other := db.evidence[k].artifactId;
        assert other != artifact;
      }
    }
  }

  /* ---- As of the instant ---- */

  /** Two ledgers alike but for retractions and validations dated after an instant. */
  ghost predicate AlikeAsOf(db: Db, db': Db, at: Instant) {
    && db.artifacts == db'.artifacts && db.inputs == db'.inputs && db.evidence == db'.evidence
    && db.coverage == db'.coverage
    && (forall r: Retraction | r.issuedAt <= at :: r in db.retractions <==> r in db'.retractions)
    && (forall k, v: Validation | v.validatedAt <= at ::
          (k in db.validations && db.validations[k] == v) <==> (k in db'.validations && db'.validations[k] == v))
  }

  lemma TakenBackAsOf(db: Db, db': Db, artifact: string, at: Instant, kind: Kind)
    requires AlikeAsOf(db, db', at)
    ensures TakenBack(db, artifact, at, kind) <==> TakenBack(db', artifact, at, kind)
  {
    hide RestsOn;
  }

  lemma RefutedAsOf(db: Db, db': Db, artifact: string, at: Instant)
    requires AlikeAsOf(db, db', at)
    ensures Refuted(db, artifact, at) ==> Refuted(db', artifact, at)
  {
    if Refuted(db, artifact, at) {
      var k :| k in db.validations && db.validations[k].artifactId == artifact && db.validations[k].validatedAt <= at
        && db.validations[k].falsified
        && forall j | j in db.validations && db.validations[j].artifactId == artifact
          && db.validations[j].validatedAt <= at :: db.validations[j].validatedAt <= db.validations[k].validatedAt;
      var v := db.validations[k];
      assert k in db'.validations && db'.validations[k] == v;
      forall j | j in db'.validations && db'.validations[j].artifactId == artifact
        && db'.validations[j].validatedAt <= at
        ensures db'.validations[j].validatedAt <= v.validatedAt
      {
        var u := db'.validations[j];
        assert j in db.validations && db.validations[j] == u;
      }
    }
  }

  /** An assessment reads nothing dated after its instant: no later retraction or validation changes what is earned. */
  lemma ExpectedIsAsOf(db: Db, db': Db, id: string, artifact: string)
    requires id in db.coverage && artifact in db.artifacts && AlikeAsOf(db, db', db.coverage[id].assessedAt)
    ensures Expected(db, id, artifact) == Expected(db', id, artifact)
  {
    hide Refuted, TakenBack;
    var at := db.coverage[id].assessedAt;
    TakenBackAsOf(db, db', artifact, at, Correction);
    TakenBackAsOf(db, db', artifact, at, Withdrawal);
    RefutedAsOf(db, db', artifact, at);
    RefutedAsOf(db', db, artifact, at);
    assert forall k | k in db.evidence ::
      Disagrees(db, id, artifact, db.evidence[k]) <==> Disagrees(db', id, artifact, db'.evidence[k]);
  }

  /** A validation dated after every assessment of its artifact is not yet known to them, and goes in. */
  lemma LaterValidationGoesIn(db: Db, id: string, v: Validation)
    requires EvidenceStands(db) && FreshKey(db, ValidationRow(id, v)) && Allowed(db, ValidationRow(id, v))
    requires forall k | k in db.evidence && db.evidence[k].coverageId in db.coverage
      && db.evidence[k].artifactId == v.artifactId ::
      db.coverage[db.evidence[k].coverageId].assessedAt < v.validatedAt
    ensures Commits(db, [ValidationRow(id, v)])
  {
    hide Expected;
    OneRow(db, ValidationRow(id, v));
    var db' := Add(db, ValidationRow(id, v));
    forall k | k in db'.evidence && db'.evidence[k].artifactId == v.artifactId ensures Earned(db', db'.evidence[k]) {
      var e := db.evidence[k];
      assert Earned(db, e);
      ExpectedIsAsOf(db, db', e.coverageId, e.artifactId);
    }
  }

  /** The ledger as it would be had nothing ever been validated. */
  function Unvalidated(db: Db): (r: Db)
    ensures r.coverage == db.coverage && r.artifacts == db.artifacts
  {
    db.(validations := map[])
  }

  /** By the instant, every refutation of the artifact has a later record, this one, that does not refute. */
  ghost predicate Lifted(db: Db, artifact: string, v: string, at: Instant) {
    && v in db.validations && db.validations[v].artifactId == artifact && !db.validations[v].falsified
    && db.validations[v].validatedAt <= at
    && forall w | w in db.validations && db.validations[w].artifactId == artifact && db.validations[w].falsified ::
         db.validations[w].validatedAt < db.validations[v].validatedAt || at < db.validations[w].validatedAt
  }

  /** A validation by the instant that does not refute lifts every refutation before it: none of them is read. */
  lemma LaterRecordLifts(db: Db, id: string, artifact: string, v: string)
    requires id in db.coverage && artifact in db.artifacts && Lifted(db, artifact, v, db.coverage[id].assessedAt)
    ensures Expected(db, id, artifact) == Expected(Unvalidated(db), id, artifact)
  {
    var at := db.coverage[id].assessedAt;
    var db' := Unvalidated(db);
    assert !Refuted(db, artifact, at) && !Refuted(db', artifact, at);
    hide Refuted, RestsOn;
    assert forall k | k in db.evidence ::
      Disagrees(db, id, artifact, db.evidence[k]) <==> Disagrees(db', id, artifact, db'.evidence[k]);
  }

  /** A refutation standing at the instant makes what would be delivered conflicting, whatever else holds of it. */
  lemma RefutationConflicts(db: Db, id: string, artifact: string, v: string)
    requires id in db.coverage && artifact in db.artifacts && v in db.validations
    requires db.validations[v].artifactId == artifact && db.validations[v].falsified
    requires StandingAt(db, v, db.coverage[id].assessedAt)
    requires db.artifacts[artifact].computedAt <= db.coverage[id].assessedAt
    requires DELIVERY_RIGHT in db.artifacts[artifact].rights
    ensures Expected(db, id, artifact) == Some(Conflicting)
  {
    hide RestsOn;
    assert Refuted(db, artifact, db.coverage[id].assessedAt);
  }

  /* ---- What has moved by the build ---- */

  /** What an artifact would earn on a row assessed anew at a later instant. */
  ghost function EarnedAt(db: Db, id: string, artifact: string, at: Instant): Option<Assessment>
    requires id in db.coverage && artifact in db.artifacts
  {
    Expected(db.(coverage := db.coverage[id := db.coverage[id].(assessedAt := at)]), id, artifact)
  }

  /**
   The corpus had not moved under what a release names: assessed anew at the build, each of its present artifacts is
   PRESENT again, exactly when its horizon did not end at the very instant it was assessed, before the build.
   */
  lemma StillPresentAtBuild(db: Db, id: string, k: string, n: Naming)
    requires Keyed(db) && id in db.releases && CorpusStill(db, id) && n in db.namings && n.releaseId == id
    requires k in db.evidence && Earned(db, db.evidence[k]) && db.evidence[k].assessment == Present
    requires db.evidence[k].coverageId == n.coverageId
    requires db.coverage[n.coverageId].assessedAt <= db.releases[id].builtAt
    ensures var e, at := db.evidence[k], db.coverage[n.coverageId].assessedAt;
      EarnedAt(db, n.coverageId, e.artifactId, db.releases[id].builtAt) == Some(Present) <==>
        !(db.artifacts[e.artifactId].horizonEndsAt == Some(at) && at < db.releases[id].builtAt)
  {
    hide RestsOn, Keyed;
    var e, at, built := db.evidence[k], db.coverage[n.coverageId].assessedAt, db.releases[id].builtAt;
    var db' := db.(coverage := db.coverage[n.coverageId := db.coverage[n.coverageId].(assessedAt := built)]);
    assert !Moved(db, n.coverageId, e, built);
    StillNotRefuted(db, n.coverageId, e, built);
    forall kind: Kind ensures !TakenBack(db', e.artifactId, built, kind) {
      assert !TakenBack(db, e.artifactId, at, kind);
    }
    assert forall j | j in db.evidence ::
      Disagrees(db, n.coverageId, e.artifactId, db.evidence[j]) <==>
      Disagrees(db', n.coverageId, e.artifactId, db'.evidence[j]);
  }

  lemma StillNotRefuted(db: Db, coverageId: string, e: Evidence, built: Instant)
    requires coverageId in db.coverage && e.coverageId == coverageId && e.assessment == Present
    requires db.coverage[coverageId].assessedAt <= built && !Moved(db, coverageId, e, built)
    requires !Refuted(db, e.artifactId, db.coverage[coverageId].assessedAt)
    ensures !Refuted(db, e.artifactId, built)
  {
    hide RestsOn;
    var at := db.coverage[coverageId].assessedAt;
    assert !RefutedBetween(db, e.artifactId, at, built);
  }

  /** Such a release commits: built three instants later, on a row whose artifact is then stale. */
  lemma ReleaseOnStaleRow()
    ensures Run(RELEASE_RUN) == RELEASED_TABLES && "release" in RELEASED_TABLES.releases
    ensures EarnsPresent(RELEASED_TABLES, "coverage", "artifact")
    ensures EarnedAt(RELEASED_TABLES, "coverage", "artifact", RELEASED_TABLES.releases["release"].builtAt)
            == Some(Stale)
  {
    ReleaseRun();
    StaleByTheBuild();
  }

  lemma StaleByTheBuild()
    ensures EarnedAt(RELEASED_TABLES, "coverage", "artifact", 13) == Some(Stale)
    ensures RELEASED_TABLES.releases["release"].builtAt == 13
  {
    NotYet();
    hide RestsOn;
    var db := RELEASED_TABLES;
    assert db.artifacts["artifact"] == ARTIFACT && db.validations == map[];
    assert forall r | r in db.retractions :: r == CORRECTED;
  }
}
