/**
 A coverage row from its artifacts alone (src/db/dossierLedger.ts): every count, its level and its assessment can be
 recomputed from what the artifacts it names earn.
 */
module DossierCoverage {
  import opened Basics
  import opened Ancestry
  import opened DossierTables
  import opened DossierLedger
  import opened DossierGrowth
  import opened DossierPromises

  /** The artifacts a coverage row names that earn an assessment as of its instant. */
  ghost function Earning(db: Db, id: string, x: Assessment): set<string>
    requires id in db.coverage
  {
    set a | a in db.coverage[id].artifactIds && a in db.artifacts && Expected(db, id, a) == Some(x)
  }

  /** The runs that computed some artifacts. */
  ghost function RunsBehind(db: Db, artifacts: set<string>): set<string> {
    set a | a in artifacts && a in db.artifacts :: db.artifacts[a].runId
  }

  function RowsOf(db: Db, id: string, x: Assessment): set<string> {
    set k | k in EvidenceOf(db, id) && db.evidence[k].assessment == x
  }

  lemma RowEarns(db: Db, id: string, k: string)
    requires Inv(db) && id in db.coverage && k in EvidenceOf(db, id)
    ensures var e := db.evidence[k];
      && e.artifactId in db.coverage[id].artifactIds && e.artifactId in db.artifacts
      && Expected(db, id, e.artifactId) == Some(e.assessment) && db.artifacts[e.artifactId].runId == e.runId
  {
    hide Expected, InputsEarlier, UniqueRows, ReleasesStand, EstimatesStand, ConclusionsRest, Priced, CountOf, RunsOf,
      UsableRunsOf;
    assert CoverageMatches(db, id) && Earned(db, db.evidence[k]);
    assert db.evidence[k].artifactId in ListedArtifacts(db, id);
  }

  lemma NamedHasRow(db: Db, id: string, a: string) returns (k: string)
    requires Inv(db) && id in db.coverage && a in db.coverage[id].artifactIds
    ensures k in EvidenceOf(db, id) && db.evidence[k].artifactId == a
  {
    hide Expected, InputsEarlier, UniqueRows, ReleasesStand, EstimatesStand, ConclusionsRest, Priced, CountOf, RunsOf,
      UsableRunsOf, EvidenceStands, Keyed;
    assert CoverageMatches(db, id);
    assert a in ListedArtifacts(db, id);
    k :| k in EvidenceOf(db, id) && db.evidence[k].artifactId == a;
  }

  /** The evidence rows with an assessment are as many as the named artifacts that earn it. */
  lemma CountIsEarned(db: Db, id: string, x: Assessment)
    requires Inv(db) && id in db.coverage
    ensures CountOf(db, id, x) == |Earning(db, id, x)|
  {
    hide Expected, Books, EvidenceStands;
    var rows := RowsOf(db, id, x);
    var name := map k | k in db.evidence :: db.evidence[k].artifactId;
    RowsDiffer(db, id);
    ImageCount(rows, name);
    forall a ensures a in Earning(db, id, x) <==> a in set k | k in rows :: name[k] {
      if a in Earning(db, id, x) {
        var k := NamedHasRow(db, id, a);
        RowEarns(db, id, k);
        assert k in rows && name[k] == a;
      }
      if a in set k | k in rows :: name[k] {
        var k :| k in rows && name[k] == a;
        RowEarns(db, id, k);
      }
    }
    assert Earning(db, id, x) == set k | k in rows :: name[k];
  }

  lemma RowsDiffer(db: Db, id: string)
    requires Inv(db)
    ensures forall j, k | j in EvidenceOf(db, id) && k in EvidenceOf(db, id) && j != k ::
      db.evidence[j].artifactId != db.evidence[k].artifactId
  {
    hide Keyed, Priced, InputsEarlier, CoverageStands, EstimatesStand, ReleasesStand, ConclusionsRest, EvidenceStands;
  }

  lemma RunsAreBehind(db: Db, id: string)
    requires Inv(db) && id in db.coverage
    ensures RunsOf(db, id) == |RunsBehind(db, set a | a in db.coverage[id].artifactIds)|
    ensures UsableRunsOf(db, id) == |RunsBehind(db, Earning(db, id, Present))|
  {
    hide Expected, Books, EvidenceStands;
    var named := set a | a in db.coverage[id].artifactIds;
    var runs := set k | k in EvidenceOf(db, id) :: db.evidence[k].runId;
    var usable := set k | k in EvidenceOf(db, id) && db.evidence[k].assessment == Present :: db.evidence[k].runId;
    forall k | k in EvidenceOf(db, id)
      ensures db.evidence[k].runId in RunsBehind(db, named)
      ensures db.evidence[k].assessment == Present ==> db.evidence[k].runId in RunsBehind(db, Earning(db, id, Present))
    {
      RowEarns(db, id, k);
      assert db.evidence[k].artifactId in named;
      if db.evidence[k].assessment == Present { assert db.evidence[k].artifactId in Earning(db, id, Present); }
    }
    forall a | a in named && a in db.artifacts
      ensures db.artifacts[a].runId in runs
      ensures a in Earning(db, id, Present) ==> db.artifacts[a].runId in usable
    {
      var k := NamedHasRow(db, id, a);
      RowEarns(db, id, k);
    }
    assert runs == RunsBehind(db, named);
    assert usable == RunsBehind(db, Earning(db, id, Present));
  }

  /** What a coverage row counts of its artifacts. */
  ghost predicate CountsHold(db: Db, id: string)
    requires id in db.coverage
  {
    var c := db.coverage[id];
    && c.available == |c.artifactIds|
    && (forall i, j | 0 <= i < j < |c.artifactIds| :: c.artifactIds[i] != c.artifactIds[j])
    && c.present == |Earning(db, id, Present)| && c.stale == |Earning(db, id, Stale)|
    && c.conflicting == |Earning(db, id, Conflicting)| && c.disallowed == |Earning(db, id, Disallowed)|
    && c.runs == |RunsBehind(db, set a | a in c.artifactIds)|
    && c.runsUsable == |RunsBehind(db, Earning(db, id, Present))|
  }

  /** Every count of a coverage row is that of the artifacts it names. */
  lemma CountsAreEarned(db: Db, id: string)
    requires Inv(db) && id in db.coverage
    ensures CountsHold(db, id)
  {
    hide Expected, Inv, RunsOf, UsableRunsOf, CountOf, Earning;
    RowMatches(db, id);
    CountIsEarned(db, id, Present);
    CountIsEarned(db, id, Stale);
    CountIsEarned(db, id, Conflicting);
    CountIsEarned(db, id, Disallowed);
    RunsAreBehind(db, id);
  }

  lemma RowMatches(db: Db, id: string)
    requires Inv(db) && id in db.coverage
    ensures CoverageMatches(db, id) && CoverageChecks(db.coverage[id])
  {
    hide Priced, InputsEarlier, UniqueRows, EstimatesStand, ReleasesStand, ConclusionsRest, EvidenceStands,
      CoverageMatches, CoverageChecks;
  }

  /**
   The level and the assessment of a coverage row, from its artifacts alone: THIN takes one that earns PRESENT and
   SUPPORTED two, computed by two runs; and the assessment is the worst that any of them earns.
   */
  lemma VerdictIsEarned(db: Db, id: string)
    requires Inv(db) && id in db.coverage
    ensures var c, present := db.coverage[id], Earning(db, id, Present);
      && (c.level == NoLevel <==> present == {})
      && (c.level == Supported <==> |present| >= 2 && |RunsBehind(db, present)| >= 2)
      && (c.assessment == Missing <==> c.artifactIds == [])
      && (c.assessment == Conflicting <==> Earning(db, id, Conflicting) != {})
      && (c.assessment == Stale <==> Earning(db, id, Conflicting) == {} && Earning(db, id, Stale) != {})
      && (c.assessment == Disallowed <==>
            Earning(db, id, Conflicting) == Earning(db, id, Stale) == {} && Earning(db, id, Disallowed) != {})
      && (c.assessment == Present <==>
            c.artifactIds != [] && forall a | a in c.artifactIds :: EarnsPresent(db, id, a))
  {
    hide Expected, Inv, Earning, RunsBehind, EarnsPresent;
    CountsAreEarned(db, id);
    RowMatches(db, id);
    AllPresentExactly(db, id);
    hide CoverageMatches;
  }

  lemma AllPresentExactly(db: Db, id: string)
    requires Inv(db) && id in db.coverage
    ensures |Earning(db, id, Present)| == |db.coverage[id].artifactIds| <==>
      forall a | a in db.coverage[id].artifactIds :: EarnsPresent(db, id, a)
  {
    hide Expected, Inv;
    CountsAreEarned(db, id);
    var ids := db.coverage[id].artifactIds;
    var named := set a | a in ids;
    DistinctSize(ids);
    assert Earning(db, id, Present) <= named;
    WholeSize(Earning(db, id, Present), named);
    assert forall a | a in ids :: EarnsPresent(db, id, a) <==> a in Earning(db, id, Present);
    if named <= Earning(db, id, Present) {
      forall a | a in ids ensures EarnsPresent(db, id, a) { assert a in named; }
    }
  }

  lemma {:induction false} DistinctSize(s: seq<string>)
    requires forall i, j | 0 <= i < j < |s| :: s[i] != s[j]
    ensures |set a | a in s| == |s|
  {
    if s != [] {
      var rest := s[..|s| - 1];
      DistinctSize(rest);
      assert s == rest + [s[|s| - 1]];
      assert (set a | a in s) == (set a | a in rest) + {s[|s| - 1]};
    }
  }

  lemma WholeSize(part: set<string>, all: set<string>)
    requires part <= all
    ensures |part| == |all| <==> all <= part
  {
    assert |all| == |part| + |all - part| by { assert all == part + (all - part); }
    if all <= part { assert all == part; }
    if |part| == |all| { assert all - part == {}; }
  }
}
