/**
 What every run of the review workers promises: one result per request, and none acknowledged before it.
 */
module WorkerPromises {
  import opened Basics
  import opened Board
  import opened BoardHistory
  import opened BoardWorkers
  import opened WorkerInvariants

  lemma {:induction false} EveryRunKeeps(w: World, start: State, events: seq<Event>)
    requires BoardOk(start) && ReceiptsEarned(start, w.scope) && OnlyAnswers(start, w.scope)
    ensures Inv(w, BoardWorkers.Run(w, start, events))
  {
    hide BoardOk, ReceiptsEarned, OnlyAnswers, PassOk;
    if events != [] {
      var before, e := events[..|events| - 1], events[|events| - 1];
      EveryRunKeeps(w, start, before);
      var s := BoardWorkers.Run(w, start, before);
      match e
      case Others(c, at) => if ByOthers(c) { hide After; OthersKeep(w, s, c, at); }
      case SendAnswer(pid, body, call) => hide Next; SendKeeps(w, s, pid, body, call);
      case SendReceipt(pid, call) => hide Next; WorkerInvariants.AcknowledgeKeeps(w, s, pid, call);
      case Look(pid) => hide Next; ReadingKeeps(w, s, e);
      case ReadBack(pid) => hide Next; ReadingKeeps(w, s, e);
      case _ => hide Next; QuietKeeps(w, s, e);
    }
  }

  /* ---- The promises ---- */

  /** A reviewer has acknowledged a request it handles only if its result for that request is on the board. */
  lemma AcknowledgedOnlyAfterResult(w: World, start: State, events: seq<Event>, a: Acknowledgement, r: Reviewer)
    requires BoardOk(start) && ReceiptsEarned(start, w.scope) && OnlyAnswers(start, w.scope)
    requires var s := BoardWorkers.Run(w, start, events).board;
      a in s.acknowledgements && a.scope == w.scope && a.participantId == ReviewerId(r)
    ensures var s := BoardWorkers.Run(w, start, events).board;
      var found := FindMessage(s.messages, w.scope, a.messageId);
      found.Some? && Handles(r, found.value) && ResultSaved(s, r, found.value)
  {
    hide BoardWorkers.Run, BoardOk, PassOk, Handles, ResultSaved;
    EveryRunKeeps(w, start, events);
    assert ReceiptEarned(BoardWorkers.Run(w, start, events).board, w.scope, a, r);
  }

  /** However many passes there are, a reviewer has at most one message in reply to a request, and it is a result. */
  lemma OneResultPerRequest(w: World, start: State, events: seq<Event>, r: Reviewer, m: Message, x: Message, y: Message)
    requires BoardOk(start) && ReceiptsEarned(start, w.scope) && OnlyAnswers(start, w.scope)
    requires var s := BoardWorkers.Run(w, start, events).board; x in s.messages && y in s.messages
    requires x.scope == y.scope == w.scope && x.draft.authorId == y.draft.authorId == ReviewerId(r)
    requires x.draft.replyTo == y.draft.replyTo == Some(m.id)
    ensures x == y && x.draft.kind == "RESULT" && x.draft.requestId == AnswerId(r, m)
    ensures r == CandidateBuildReview ==> |x.draft.body| <= 3500
  {
    hide BoardWorkers.Run, PassOk, HistoryOk, ReviewerId;
    EveryRunKeeps(w, start, events);
    var s := BoardWorkers.Run(w, start, events).board;
    assert IsAnswer(x, w.scope, r) && IsAnswer(y, w.scope, r);
    OneMessagePerRequest(s.participants, s.messages, x, y);
  }
}
