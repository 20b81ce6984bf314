/**
 The seed of the local board (src/coordination/seed.ts): twelve participants and three messages. What participants
 and messages say in prose is a parameter; who they are and how the messages are routed is not.
 */
module BoardSeed {
  import opened Basics
  import opened Decimals
  import opened Board
  import opened BoardHistory
  import opened BoardStore
  import opened BoardWorkers
  import opened WorkerInvariants
  import opened WorkerPromises

  const SCOPE := "firm:coordination-demo"

  const IDS: seq<string> := [
    "apparatus.evidence", "apparatus.corpus", "apparatus.coordination", "apparatus.compute", "apparatus.delivery",
    "apparatus.verification", "agent.source", "agent.normalize", "agent.identity", "agent.release", "agent.recall",
    "agent.simulation"]

  /** What the seed says in prose: a participant's particulars, and the titles and bodies of messages. */
  datatype Prose = Prose(particulars: string -> Participant, title: nat -> string, body: nat -> string)

  function Definition(prose: Prose, id: string): Participant {
    prose.particulars(id).(id := id, scope := SCOPE, domains := DOMAINS)
  }

  function Participants(prose: Prose): (ps: seq<Participant>)
    ensures |ps| == |IDS|
  {
    seq(|IDS|, i requires 0 <= i < |IDS| => Definition(prose, IDS[i]))
  }

  function Opening(prose: Prose): Draft {
    Draft("seed-1", "apparatus.coordination", None, "NOTE", "os-assembly", prose.title(1), prose.body(1), None, None)
  }

  function Identity(prose: Prose, context: Context): Draft {
    Draft("seed-2", "apparatus.corpus", Some("agent.identity"), "BLOCKER", "caravan-identity", prose.title(2),
          prose.body(2), Some(context), None)
  }

  function Assembly(prose: Prose, context: Context): Draft {
    Draft("seed-3", "apparatus.verification", Some("agent.release"), "HANDOFF", "release-assembly", prose.title(3),
          prose.body(3), Some(context), None)
  }

  function Messages(prose: Prose, context: Context): seq<Message> {
    [Message(Opening(prose), MessageId(1), 1, SCOPE, "2026-09-05T12:00:00.000Z"),
     Message(Identity(prose, context), MessageId(2), 2, SCOPE, "2026-09-05T12:05:00.000Z"),
     Message(Assembly(prose, context), MessageId(3), 3, SCOPE, "2026-09-05T12:10:00.000Z")]
  }

  function Seed(prose: Prose, context: Context): State { State(Participants(prose), Messages(prose, context), []) }

  /* ---- The participants are twelve ---- */

  /** Enough of an identifier to tell the seed's apart. */
  function Mark(id: string): (nat, char, char, char)
    requires |id| > 10
  {
    (|id|, id[1], id[6], id[10])
  }

  lemma IdsDiffer(i: nat, j: nat)
    requires i < j < |IDS|
    ensures IDS[i] != IDS[j]
  {
    assert forall k | 0 <= k < 12 :: |IDS[k]| > 10;
    assert Mark(IDS[0]) == (18, 'p', 't', 'e') && Mark(IDS[1]) == (16, 'p', 't', 'c')
      && Mark(IDS[2]) == (22, 'p', 't', 'c');
    assert Mark(IDS[3]) == (17, 'p', 't', 'c') && Mark(IDS[4]) == (18, 'p', 't', 'd')
      && Mark(IDS[5]) == (22, 'p', 't', 'v');
    assert Mark(IDS[6]) == (12, 'g', 's', 'c') && Mark(IDS[7]) == (15, 'g', 'n', 'a')
      && Mark(IDS[8]) == (14, 'g', 'i', 't');
    assert Mark(IDS[9]) == (13, 'g', 'r', 'a') && Mark(IDS[10]) == (12, 'g', 'r', 'l')
      && Mark(IDS[11]) == (16, 'g', 's', 'l');
  }

  lemma {:induction false} NoneFound(ps: seq<Participant>, scope: string, id: string)
    requires forall p | p in ps :: p.id != id
    ensures FindParticipant(ps, scope, id).None?
  {
    if ps != [] {
      assert ps[0] in ps && forall p | p in ps[1..] :: p in ps;
      NoneFound(ps[1..], scope, id);
    }
  }

  lemma {:induction false} FirstFound(ps: seq<Participant>, i: nat)
    requires i < |ps| && forall j | 0 <= j < i :: ps[j].id != ps[i].id
    ensures FindParticipant(ps, ps[i].scope, ps[i].id) == Some(ps[i])
  {
    if i > 0 {
      assert forall j | 0 <= j < i - 1 :: ps[1..][j].id != ps[1..][i - 1].id;
      FirstFound(ps[1..], i - 1);
    }
  }

  lemma {:induction false} FewIn(ps: seq<Participant>, scope: string)
    ensures |ParticipantsIn(ps, scope)| <= |ps|
  {
    if ps != [] { FewIn(ps[..|ps| - 1], scope); }
  }

  lemma {:induction false} DistinctAreOk(ps: seq<Participant>)
    requires |ps| <= MAX_PARTICIPANTS && forall i, j | 0 <= i < j < |ps| :: ps[i].id != ps[j].id
    ensures ParticipantsOk(ps)
  {
    if ps != [] {
      var n := |ps| - 1;
      DistinctAreOk(ps[..n]);
      NoneFound(ps[..n], ps[n].scope, ps[n].id);
      FewIn(ps[..n], ps[n].scope);
    }
  }

  lemma ParticipantFound(prose: Prose, i: nat)
    requires i < |IDS|
    ensures FindParticipant(Participants(prose), SCOPE, IDS[i]) == Some(Definition(prose, IDS[i]))
  {
    forall j | 0 <= j < i ensures IDS[j] != IDS[i] { IdsDiffer(j, i); }
    FirstFound(Participants(prose), i);
  }

  /* ---- The messages were admitted ---- */

  lemma SendersMay(prose: Prose, context: Context, before: seq<Message>)
    requires context.domain in DOMAINS
    ensures var s := State(Participants(prose), before, []);
      && Checked(s, SCOPE, Opening(prose)).Ok? && Checked(s, SCOPE, Identity(prose, context)).Ok?
      && Checked(s, SCOPE, Assembly(prose, context)).Ok?
  {
    ParticipantFound(prose, 2);
    ParticipantFound(prose, 1);
    ParticipantFound(prose, 8);
    ParticipantFound(prose, 5);
    ParticipantFound(prose, 9);
    IdsDiffer(5, 9);
    hide FindParticipant;
  }

  lemma MessagesAreOk(prose: Prose, context: Context)
    requires context.domain in DOMAINS
    ensures HistoryOk(Participants(prose), Messages(prose, context))
  {
    hide MessageId, Checked, Participants, Opening, Identity, Assembly;
    var ps, ms := Participants(prose), Messages(prose, context);
    SendersMay(prose, context, ms[..0]);
    SendersMay(prose, context, ms[..1]);
    SendersMay(prose, context, ms[..2]);
    RequestsDiffer(prose, context);
    assert ms[..1] == [ms[0]] && ms[..2] == [ms[0], ms[1]] && ms[..3] == ms && ms[..0] == [];
    assert ms[..2][..1] == ms[..1] && ms[..1][..0] == ms[..0];
    assert MessagesIn(ms[..0], SCOPE) == [] && MessagesIn(ms[..1], SCOPE) == [ms[0]]
      && MessagesIn(ms[..2], SCOPE) == [ms[0], ms[1]];
    assert AdmittedMessage(ps, ms[..0], ms[0]);
    assert AdmittedMessage(ps, ms[..1], ms[1]);
    assert AdmittedMessage(ps, ms[..2], ms[2]);
    assert HistoryOk(ps, ms[..1]);
    assert HistoryOk(ps, ms[..2]);
  }

  lemma RequestsDiffer(prose: Prose, context: Context)
    ensures var ms := Messages(prose, context);
      && FindRequest(ms[..0], SCOPE, ms[0].draft.authorId, ms[0].draft.requestId).None?
      && FindRequest(ms[..1], SCOPE, ms[1].draft.authorId, ms[1].draft.requestId).None?
      && FindRequest(ms[..2], SCOPE, ms[2].draft.authorId, ms[2].draft.requestId).None?
  {
    var ms := Messages(prose, context);
    var first, second, third := ms[0].draft.requestId, ms[1].draft.requestId, ms[2].draft.requestId;
    assert first[5] == '1' && second[5] == '2' && third[5] == '3';
    hide Messages;
    assert ms[..0] == [] && ms[..1] == [ms[0]] && ms[..2] == [ms[0], ms[1]];
    assert [ms[0]][1..] == [] && [ms[0], ms[1]][1..] == [ms[1]] && [ms[1]][1..] == [];
    assert FindRequest([ms[1]], SCOPE, ms[2].draft.authorId, third).None?;
  }

  lemma NoAnswers(prose: Prose, context: Context, scope: string)
    ensures OnlyAnswers(Seed(prose, context), scope)
  {
    var ms := Messages(prose, context);
    assert ms[0].draft.authorId[1] == 'p' && ms[1].draft.authorId[1] == 'p' && ms[2].draft.authorId[1] == 'p';
    assert ReviewerId(ContractReview)[1] == 'g' && ReviewerId(CandidateBuildReview)[1] == 'g';
    hide Messages, ReviewerId;
    forall x, r | x in ms ensures IsAnswer(x, scope, r) {
      assert x == ms[0] || x == ms[1] || x == ms[2];
      assert r == ContractReview || r == CandidateBuildReview;
    }
  }

  /** The shipped board is in order, and holds nothing of the reviewers'. */
  lemma SeedIsOk(prose: Prose, context: Context, scope: string)
    requires context.domain in DOMAINS
    ensures var s := Seed(prose, context); BoardOk(s) && ReceiptsEarned(s, scope) && OnlyAnswers(s, scope)
  {
    hide HistoryOk, ParticipantsOk, Messages, OnlyAnswers;
    var s := Seed(prose, context);
    forall i, j | 0 <= i < j < |IDS| ensures s.participants[i].id != s.participants[j].id { IdsDiffer(i, j); }
    DistinctAreOk(s.participants);
    MessagesAreOk(prose, context);
    NoAnswers(prose, context, scope);
  }

  /** Every log of commands over the shipped seed replays to a board in order. */
  lemma ShippedBoardIsOk(prose: Prose, context: Context, allowed: seq<Context>, commands: seq<Saved>)
    requires context.domain in DOMAINS && Replay(Seed(prose, context), SCOPE, allowed, commands).Some?
    ensures BoardOk(Replay(Seed(prose, context), SCOPE, allowed, commands).value)
  {
    hide BoardOk, Seed;
    SeedIsOk(prose, context, SCOPE);
    ReplayedBoardIsOk(Seed(prose, context), SCOPE, allowed, commands);
  }

  /**
   Over the shipped seed, every run of reviewers and others keeps results before receipts and one result per
   request.
   */
  lemma ShippedRunsKeep(prose: Prose, context: Context, w: World, events: seq<BoardWorkers.Event>)
    requires context.domain in DOMAINS
    ensures WorkerInvariants.Inv(w, BoardWorkers.Run(w, Seed(prose, context), events))
  {
    hide BoardOk, Seed, WorkerInvariants.Inv, BoardWorkers.Run;
    SeedIsOk(prose, context, w.scope);
    WorkerPromises.EveryRunKeeps(w, Seed(prose, context), events);
  }
}
