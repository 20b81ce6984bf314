/**
 Standing evidence: how far the guards of src/db/dossierLedger.ts keep it what its artifacts earn.
 */
module DossierEvidence {
  import opened Ancestry
  import opened DossierTables
  import opened DossierLedger
  import opened DossierGrowth

  /** No row adds an input to an artifact some standing evidence was computed over: cited ancestries are frozen. */
  ghost predicate Frozen(db: Db, rows: seq<Row>) {
    forall i, at, rights, k | InputRow(i, at, rights) in rows && k in db.evidence ::
      !Beneath(db.inputs, db.evidence[k].artifactId, i.artifact)
  }

  lemma CitedRestsSame(db: Db, rows: seq<Row>, k: string, record: string)
    requires Frozen(db, rows) && k in db.evidence
    ensures RestsOn(InputsWith(db, rows), db.evidence[k].artifactId, record)
      ==> RestsOn(db.inputs, db.evidence[k].artifactId, record)
  {
    var a, more := db.evidence[k].artifactId, InputsWith(db, rows);
    if RestsOn(more, a, record) {
      var p :| ChainTo(more, a, p, record);
      forall i | i in more - db.inputs ensures !Beneath(db.inputs, a, i.artifact) {
        var row :| row in rows && row.InputRow? && row.input == i;
        assert row == InputRow(i, row.knownAt, row.rights);
      }
      NewInputsElsewhere(db.inputs, more, a, p, record);
    }
  }

  lemma RestsStays(inputs: set<Input>, more: set<Input>, a: string, record: string)
    requires inputs <= more && RestsOn(inputs, a, record)
    ensures RestsOn(more, a, record)
  {
    var p :| ChainTo(inputs, a, p, record);
    assert ChainTo(more, a, p, record);
  }

  lemma NewEvidenceMatches(db: Db, db': Db, rows: seq<Row>, k: string)
    requires Explained(db, db', rows) && k in db'.evidence && db'.evidence[k].coverageId in db'.coverage
    requires forall row | row in rows :: Deferred(db', row)
    ensures k in db.evidence || CoverageMatches(db', db'.evidence[k].coverageId)
  {
    hide CoverageMatches, Earned;
    if k !in db.evidence { assert Deferred(db', EvidenceRow(k, db'.evidence[k])); }
  }

  /** Evidence arriving on a coverage row already counted is refused, so the row's artifacts never change. */
  lemma NoLateEvidence(db: Db, db': Db, rows: seq<Row>, k: string)
    requires Grew(db, db') && Explained(db, db', rows) && CoverageStands(db) && UniqueRows(db')
    requires forall row | row in rows :: Deferred(db', row)
    requires k in db'.evidence && db'.evidence[k].coverageId in db.coverage
    ensures k in db.evidence
  {
    hide Deferred, Explained, CountOf, RunsOf, UsableRunsOf;
    var e := db'.evidence[k];
    NewEvidenceMatches(db, db', rows, k);
    if CoverageMatches(db', e.coverageId) {
      assert CoverageMatches(db, e.coverageId);
      assert k in EvidenceOf(db', e.coverageId);
      assert e.artifactId in ListedArtifacts(db', e.coverageId);
      assert e.artifactId in ListedArtifacts(db, e.coverageId);
      var j :| j in EvidenceOf(db, e.coverageId) && db.evidence[j].artifactId == e.artifactId;
      assert db'.evidence[j] == db.evidence[j];
      assert j == k;
    }
  }

  /**
   A retraction on record by the row's instant would reach its artifact through these inputs, and the row does not
   reflect it.
   */
  ghost predicate Overtaken(db: Db, inputs: set<Input>, e: Evidence)
    requires e.coverageId in db.coverage
  {
    exists r | r in db.retractions ::
      && r.issuedAt <= db.coverage[e.coverageId].assessedAt && RestsOn(inputs, e.artifactId, r.recordId)
      && (e.assessment == Present || (e.assessment == Stale && r.kind == Correction))
  }

  /**
   Unless new inputs overtake it, what a standing row earns changes only through a retraction under its artifact or
   a validation of it.
   */
  lemma ExpectedUnmoved(db: Db, db': Db, rows: seq<Row>, k: string)
    requires Grew(db, db') && Explained(db, db', rows) && Keyed(db) && CoverageStands(db) && UniqueRows(db')
    requires forall row | row in rows :: Deferred(db', row)
    requires k in db.evidence && Earned(db, db.evidence[k]) && !Overtaken(db, db'.inputs, db.evidence[k])
    requires forall r | RetractionRow(r) in rows :: !RestsOn(db'.inputs, db.evidence[k].artifactId, r.recordId)
    requires forall id, v | ValidationRow(id, v) in rows :: v.artifactId != db.evidence[k].artifactId
    ensures Earned(db', db.evidence[k])
  {
    hide CoverageStands, Deferred, UniqueRows, RestsOn, Explained, TakenBack, Refuted;
    var id, a := db.evidence[k].coverageId, db.evidence[k].artifactId;
    var at := db.coverage[id].assessedAt;
    TakenBackAfter(db, db', rows, db.evidence[k], Correction);
    TakenBackAfter(db, db', rows, db.evidence[k], Withdrawal);
    RefutedSame(db, db', rows, a, at);
    NeighboursSame(db, db', rows, id, a);
    hide Disagrees, Keyed;
  }

  lemma NeighboursSame(db: Db, db': Db, rows: seq<Row>, id: string, a: string)
    requires Grew(db, db') && Explained(db, db', rows) && Keyed(db) && CoverageStands(db) && UniqueRows(db')
    requires forall row | row in rows :: Deferred(db', row)
    requires id in db.coverage && a in db.artifacts
    ensures (exists j | j in db.evidence :: Disagrees(db, id, a, db.evidence[j]))
      <==> (exists j | j in db'.evidence :: Disagrees(db', id, a, db'.evidence[j]))
  {
    hide CoverageStands, Deferred, UniqueRows, Explained;
    forall j | j in db'.evidence && Disagrees(db', id, a, db'.evidence[j])
      ensures j in db.evidence && Disagrees(db, id, a, db.evidence[j]) {
      NoLateEvidence(db, db', rows, j);
    }
    forall j | j in db.evidence && Disagrees(db, id, a, db.evidence[j])
      ensures Disagrees(db', id, a, db'.evidence[j]) {}
  }

  /** What was taken back stays so; what is taken back newly, the row must already reflect. */
  lemma TakenBackAfter(db: Db, db': Db, rows: seq<Row>, e: Evidence, kind: Kind)
    requires Grew(db, db') && Explained(db, db', rows) && e.coverageId in db.coverage
    requires !Overtaken(db, db'.inputs, e)
    requires forall r | RetractionRow(r) in rows :: !RestsOn(db'.inputs, e.artifactId, r.recordId)
    ensures var at := db.coverage[e.coverageId].assessedAt;
      && (TakenBack(db, e.artifactId, at, kind) ==> TakenBack(db', e.artifactId, at, kind))
      && (TakenBack(db', e.artifactId, at, kind) ==>
            e.assessment != Present && (e.assessment == Stale ==> kind != Correction))
  {
    hide RestsOn;
    var at := db.coverage[e.coverageId].assessedAt;
    if r :| r in db.retractions && r.kind == kind && r.issuedAt <= at && RestsOn(db.inputs, e.artifactId, r.recordId) {
      RestsStays(db.inputs, db'.inputs, e.artifactId, r.recordId);
    }
  }

  lemma ValidationSource(db: Db, db': Db, rows: seq<Row>, k: string)
    requires Explained(db, db', rows) && k in db'.validations
    ensures k in db.validations || ValidationRow(k, db'.validations[k]) in rows
  {
  }

  lemma RefutedSame(db: Db, db': Db, rows: seq<Row>, a: string, at: Instant)
    requires Grew(db, db') && Explained(db, db', rows)
    requires forall id, v | ValidationRow(id, v) in rows :: v.artifactId != a
    ensures Refuted(db, a, at) <==> Refuted(db', a, at)
  {
    forall k | k in db'.validations ensures k in db.validations || ValidationRow(k, db'.validations[k]) in rows {
      ValidationSource(db, db', rows, k);
    }
  }

  /** The guards keep standing evidence: each checks a slice, and but for overtaking inputs the slices are enough. */
  lemma EvidenceKept(db: Db, db': Db, rows: seq<Row>)
    requires Grew(db, db') && Explained(db, db', rows) && Keyed(db) && CoverageStands(db) && EvidenceStands(db)
      && UniqueRows(db')
    requires forall row | row in rows :: Deferred(db', row)
    requires forall k | k in db.evidence && db.evidence[k].coverageId in db.coverage ::
      !Overtaken(db, db'.inputs, db.evidence[k])
    ensures EvidenceStands(db')
  {
    hide CoverageMatches, CoverageStands, Keyed, UniqueRows, RestsOn, Expected, Overtaken, CorpusStill, ReleaseStands,
      EstimateStands, RestsOnPresent;
    forall k | k in db'.evidence ensures Earned(db', db'.evidence[k]) {
      if k !in db.evidence {
        assert Deferred(db', EvidenceRow(k, db'.evidence[k]));
      } else {
        var a := db.evidence[k].artifactId;
        if r :| RetractionRow(r) in rows && RestsOn(db'.inputs, a, r.recordId) {
          assert Deferred(db', RetractionRow(r));
        } else if id, v :| ValidationRow(id, v) in rows && v.artifactId == a {
          assert Deferred(db', ValidationRow(id, v));
        } else {
          assert Earned(db, db.evidence[k]);
          ExpectedUnmoved(db, db', rows, k);
        }
      }
    }
  }

  /** An overtaken row is no longer what its artifact earns. */
  lemma OvertakenIsUnsettled(db: Db, db': Db, e: Evidence)
    requires Grew(db, db') && e.coverageId in db.coverage && Overtaken(db, db'.inputs, e)
    ensures !Earned(db', e)
  {
    hide RestsOn;
    var r :| r in db.retractions && r.issuedAt <= db.coverage[e.coverageId].assessedAt
      && RestsOn(db'.inputs, e.artifactId, r.recordId)
      && (e.assessment == Present || (e.assessment == Stale && r.kind == Correction));
    assert r in db'.retractions;
    assert TakenBack(db', e.artifactId, db'.coverage[e.coverageId].assessedAt, r.kind);
  }

  /** The ancestry with the inputs these rows add. */
  function InputsWith(db: Db, rows: seq<Row>): set<Input> {
    db.inputs + set row | row in rows && row.InputRow? :: row.input
  }

  lemma {:induction false} InputsAfter(db: Db, rows: seq<Row>)
    requires InsertAll(db, rows).Some?
    ensures InsertAll(db, rows).value.inputs == InputsWith(db, rows)
    decreases |rows|
  {
    hide Insert;
    if rows != [] {
      InsertInputs(db, rows[0]);
      InputsAfter(Insert(db, rows[0]).value, rows[1..]);
      assert forall row :: row in rows <==> row == rows[0] || row in rows[1..];
    }
  }

  lemma InsertInputs(db: Db, row: Row)
    requires Insert(db, row).Some?
    ensures Insert(db, row).value.inputs == db.inputs + (if row.InputRow? then {row.input} else {})
  {
    hide FreshKey, Allowed;
  }

  /** Some standing row would be overtaken by the inputs these rows add: the check no guard makes. */
  ghost predicate Overtakes(db: Db, rows: seq<Row>) {
    exists k | k in db.evidence && db.evidence[k].coverageId in db.coverage ::
      Overtaken(db, InputsWith(db, rows), db.evidence[k])
  }

  /**
   A committed transaction leaves every standing row what its artifact earns exactly when its inputs overtake none.
   */
  lemma EvidenceStandsExactly(db: Db, rows: seq<Row>)
    requires Inv(db) && Commits(db, rows)
    ensures EvidenceStands(After(db, rows)) <==> !Overtakes(db, rows)
  {
    hide Keyed, Priced, InputsEarlier, UniqueRows, CoverageStands, EstimatesStand, ReleasesStand, ConclusionsRest,
      Grew, Explained, NotBackdated, InsertAll, Deferred, Overtaken, Earned, InputsWith;
    var db' := InsertAll(db, rows).value;
    InsertAllKeeps(db, rows);
    InputsAfter(db, rows);
    if k :| k in db.evidence && db.evidence[k].coverageId in db.coverage && Overtaken(db, db'.inputs, db.evidence[k]) {
      OvertakenIsUnsettled(db, db', db.evidence[k]);
      StandsThere(db, db', k);
    } else {
      EvidenceKept(db, db', rows);
    }
  }

  lemma StandsThere(db: Db, db': Db, k: string)
    requires Grew(db, db') && k in db.evidence
    ensures k in db'.evidence && db'.evidence[k] == db.evidence[k]
  {
  }

  /** Leaving cited ancestries alone overtakes nothing. */
  lemma FrozenOvertakesNothing(db: Db, rows: seq<Row>)
    requires EvidenceStands(db) && Frozen(db, rows)
    ensures !Overtakes(db, rows)
  {
    hide RestsOn, Frozen;
    forall k | k in db.evidence && db.evidence[k].coverageId in db.coverage
      ensures !Overtaken(db, InputsWith(db, rows), db.evidence[k]) {
      var e := db.evidence[k];
      assert Earned(db, e);
      forall record ensures RestsOn(InputsWith(db, rows), e.artifactId, record)
        ==> RestsOn(db.inputs, e.artifactId, record) {
        CitedRestsSame(db, rows, k, record);
      }
      forall r | r in db.retractions && r.issuedAt <= db.coverage[e.coverageId].assessedAt
        && RestsOn(db.inputs, e.artifactId, r.recordId)
        ensures e.assessment != Present && (e.assessment == Stale ==> r.kind != Correction)
      {
        assert TakenBack(db, e.artifactId, db.coverage[e.coverageId].assessedAt, r.kind);
      }
    }
  }

  lemma CoverageKept(db: Db, db': Db, rows: seq<Row>)
    requires Grew(db, db') && Explained(db, db', rows) && Keyed(db) && CoverageStands(db) && UniqueRows(db')
    requires forall row | row in rows :: Deferred(db', row)
    ensures CoverageStands(db')
  {
    hide UniqueRows, Earned, CoverageMatches;
    forall k | k in db'.coverage ensures CoverageMatches(db', k) {
      if k !in db.coverage {
        assert Deferred(db', CoverageRow(k, db'.coverage[k]));
      } else {
        SameEvidence(db, db', rows, k);
        SameEvidenceSameMatch(db, db', k);
      }
    }
  }

  lemma SameEvidence(db: Db, db': Db, rows: seq<Row>, id: string)
    requires Grew(db, db') && Explained(db, db', rows) && CoverageStands(db) && UniqueRows(db') && id in db.coverage
    requires forall row | row in rows :: Deferred(db', row)
    ensures forall j | j in EvidenceOf(db', id) :: j in EvidenceOf(db, id) && db'.evidence[j] == db.evidence[j]
  {
    hide Deferred, Explained, CoverageStands, UniqueRows;
    forall j | j in EvidenceOf(db', id) ensures j in EvidenceOf(db, id) && db'.evidence[j] == db.evidence[j] {
      NoLateEvidence(db, db', rows, j);
    }
  }

  lemma SameEvidenceSameMatch(db: Db, db': Db, id: string)
    requires Grew(db, db') && id in db.coverage && CoverageMatches(db, id)
    requires forall j | j in EvidenceOf(db', id) :: j in EvidenceOf(db, id) && db'.evidence[j] == db.evidence[j]
    ensures CoverageMatches(db', id)
  {
    var evidence, evidence' := EvidenceOf(db, id), EvidenceOf(db', id);
    assert evidence == evidence';
    assert ListedArtifacts(db, id) == ListedArtifacts(db', id);
    forall a: Assessment ensures CountOf(db, id, a) == CountOf(db', id, a) {
      assert (set k | k in evidence && db.evidence[k].assessment == a)
        == (set k | k in evidence' && db'.evidence[k].assessment == a);
    }
    assert (set k | k in evidence :: db.evidence[k].runId) == (set k | k in evidence' :: db'.evidence[k].runId);
    assert (set k | k in evidence && db.evidence[k].assessment == Present :: db.evidence[k].runId)
        == (set k | k in evidence' && db'.evidence[k].assessment == Present :: db'.evidence[k].runId);
  }
}
