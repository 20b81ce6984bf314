/**
 What a review worker answers, and what it answers (src/coordination/contract-review.ts,
 src/coordination/candidate-build-review.ts), each worker by its own words.
 */
module WorkerRules {
  import opened Basics
  import opened Board
  import opened BoardWorkers

  /** The requests of either worker: sent to it, on its topic, to be done; a candidate build has no release yet. */
  lemma RequestsExactly(m: Message)
    ensures Handles(ContractReview, m) <==>
      && m.draft.recipientId == Some("agent.contract-review.v1") && m.draft.topic == "contract-review"
      && m.draft.kind in ["REQUEST", "HANDOFF"]
    ensures Handles(CandidateBuildReview, m) <==>
      && m.draft.recipientId == Some("agent.candidate-build-review.v1") && m.draft.topic == "candidate-build-review"
      && m.draft.kind in ["REQUEST", "HANDOFF"] && m.draft.context == None
  {
  }

  /** An answer is a result, to whoever asked, in the thread of the request, under one name for each request. */
  lemma AnswersExactly(r: Reviewer, m: Message, body: string)
    ensures var d := AnswerTo(r, m, body);
      var me := if r == ContractReview then "agent.contract-review.v1" else "agent.candidate-build-review.v1";
      && d.requestId == me + ":" + m.id && d.authorId == me && d.recipientId == Some(m.draft.authorId)
      && d.kind == "RESULT" && d.topic == m.draft.topic && d.body == body && d.context == m.draft.context
      && d.replyTo == Some(m.id) && |d.title| <= 180
      && (r == CandidateBuildReview ==> d.title == "Candidate build inspection")
      && (r == ContractReview ==>
            d.title <= "Contract review: " + m.draft.title
            && (d.title == "Contract review: " + m.draft.title || |d.title| == 180))
  {
  }

  /** No two requests, and no two workers, share the name an answer goes under. */
  lemma AnswerNamesDiffer(r: Reviewer, m: Message, q: Reviewer, n: Message)
    requires AnswerId(r, m) == AnswerId(q, n)
    ensures r == q && m.id == n.id
  {
    var a, b := AnswerId(r, m), AnswerId(q, n);
    assert ReviewerId(ContractReview)[7] == 'o' && ReviewerId(CandidateBuildReview)[7] == 'a';
    assert a[7] == ReviewerId(r)[7] && b[7] == ReviewerId(q)[7];
    var k := |ReviewerId(r)| + 1;
    assert a[k..] == m.id && b[k..] == n.id;
  }

  /**
   Whoever posts an answer goes on to acknowledge, or to read back, exactly so: a contract review when it is told that
   the board took it, and a candidate inspection after any post of a sound report that fits.
   */
  lemma PostingExactly(w: World, s: System, pid: nat, body: string, call: Call)
    requires pid in s.passes && s.passes[pid].place.Posting?
    ensures var p := s.passes[pid];
      var m := p.place.request;
      var next := Next(w, s, SendAnswer(pid, body, call)).passes[pid].place;
      var taken := ApplyCommand(s.board, w.scope, Post(AnswerTo(p.reviewer, m, body)), w.allowed, call.at).Ok?;
      && (p.reviewer == ContractReview ==>
            (next == Acknowledging(m) <==> call.arrives && call.answered && taken)
            && (next == Stopped <==> !call.arrives || !call.answered || !taken))
      && (p.reviewer == CandidateBuildReview ==>
            (next == ReadingBack(m) <==> w.valid(body, m) && |body| <= 3500)
            && (next == Stopped <==> !w.valid(body, m) || |body| > 3500))
  {
    hide AnswerTo, ApplyCommand;
  }

  /** An earlier answer is used again exactly when it is one to this request; a candidate report must also be sound. */
  lemma PriorExactly(s: State, r: Reviewer, m: Message, valid: (string, Message) -> bool)
    ensures var found := FindRequest(s.messages, m.scope, ReviewerId(r), AnswerId(r, m));
      && (PriorAnswer(s, r, m, valid) == NoPrior <==> found == None)
      && (PriorAnswer(s, r, m, valid) == Usable <==>
            && found.Some?
            && var d := found.value.draft;
               && d.kind == "RESULT" && d.replyTo == Some(m.id) && d.recipientId == Some(m.draft.authorId)
               && d.topic == m.draft.topic && d.context == m.draft.context
               && (r == ContractReview
                   || (d.title == "Candidate build inspection" && m.sequence < found.value.sequence
                       && valid(d.body, m))))
  {
    hide FindRequest, AnswerId;
  }
}
