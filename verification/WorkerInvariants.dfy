/**
 What every step of a review worker, and of everybody else, keeps of results and acknowledgements.
 */
module WorkerInvariants {
  import opened Basics
  import opened Board
  import opened BoardHistory
  import opened Decimals
  import opened BoardWorkers
  import opened BoardRules

  /* ---- What every run keeps ---- */

  /** The reviewer's result for a request is on the board. */
  predicate ResultSaved(s: State, r: Reviewer, m: Message) {
    var found := FindRequest(s.messages, m.scope, ReviewerId(r), AnswerId(r, m));
    found.Some? && found.value.draft.kind == "RESULT" && found.value.draft.replyTo == Some(m.id)
  }

  /** A reviewer's acknowledgement belongs to a request it handles, whose result is saved. */
  predicate ReceiptEarned(s: State, scope: string, a: Acknowledgement, r: Reviewer) {
    a.scope == scope && a.participantId == ReviewerId(r) ==>
      var found := FindMessage(s.messages, scope, a.messageId);
      found.Some? && Handles(r, found.value) && found.value.scope == scope && ResultSaved(s, r, found.value)
  }

  ghost predicate ReceiptsEarned(s: State, scope: string) {
    forall a, r | a in s.acknowledgements :: ReceiptEarned(s, scope, a, r)
  }

  /** What a reviewer writes is a result, under the identifier for the message it replies to. */
  predicate IsAnswer(x: Message, scope: string, r: Reviewer) {
    x.scope == scope && x.draft.authorId == ReviewerId(r) ==>
      && x.draft.kind == "RESULT" && x.draft.replyTo.Some?
      && x.draft.requestId == ReviewerId(r) + ":" + x.draft.replyTo.value
      && (r == CandidateBuildReview ==> |x.draft.body| <= 3500)
  }

  ghost predicate OnlyAnswers(s: State, scope: string) { forall x, r | x in s.messages :: IsAnswer(x, scope, r) }

  predicate HasRequest(place: Place) { !place.Scanning? && !place.Stopped? }

  predicate PassOk(w: World, s: State, p: Pass) {
    HasRequest(p.place) ==>
      var m := p.place.request;
      m in s.messages && m.scope == w.scope && Handles(p.reviewer, m)
      && (p.place.Acknowledging? ==> ResultSaved(s, p.reviewer, m))
  }

  ghost predicate Inv(w: World, s: System) {
    && BoardOk(s.board) && ReceiptsEarned(s.board, w.scope) && OnlyAnswers(s.board, w.scope)
    && forall pid | pid in s.passes :: PassOk(w, s.board, s.passes[pid])
  }

  lemma ResultStays(s: State, t: State, r: Reviewer, m: Message)
    requires Extends(s, t) && ResultSaved(s, r, m)
    ensures ResultSaved(t, r, m)
  {
    hide ReviewerId, TopicOf, TitleOf, AnswerId;
    RequestStays(s.messages, t.messages, m.scope, ReviewerId(r), AnswerId(r, m));
  }

  lemma EarnedStays(s: State, t: State, scope: string, a: Acknowledgement, r: Reviewer)
    requires Extends(s, t) && ReceiptEarned(s, scope, a, r)
    ensures ReceiptEarned(t, scope, a, r)
  {
    hide ReviewerId, TopicOf, TitleOf, AnswerId;
    hide ResultSaved, Handles;
    if a.scope == scope && a.participantId == ReviewerId(r) {
      MessageStays(s.messages, t.messages, scope, a.messageId);
      ResultStays(s, t, r, FindMessage(s.messages, scope, a.messageId).value);
    }
  }

  lemma PassStays(w: World, s: State, t: State, p: Pass)
    requires Extends(s, t) && PassOk(w, s, p)
    ensures PassOk(w, t, p)
  {
    hide ReviewerId, TopicOf, TitleOf, AnswerId;
    hide ResultSaved, Handles;
    if p.place.Acknowledging? { ResultStays(s, t, p.reviewer, p.place.request); }
  }

  /* Message identifiers and answer identifiers are left as they are by trimming. */

  lemma NothingToTrim(s: string)
    requires s != [] && !Space(s[0]) && !Space(s[|s| - 1])
    ensures Trim(s) == s
  {
  }

  lemma IdentifierIsTrim(s: string)
    requires Identifier(s).Ok?
    ensures Identifier(s).value == Trim(s)
  {
  }

  lemma MessageIdIsPlain(n: nat)
    ensures Trim(MessageId(n)) == MessageId(n)
  {
    var id := MessageId(n);
    var d := Padded(n, 5);
    assert d[|d| - 1] in d && id[|id| - 1] == d[|d| - 1];
    NothingToTrim(id);
  }

  lemma AnswerIdIsPlain(r: Reviewer, m: Message, n: nat)
    requires m.id == MessageId(n)
    ensures Trim(AnswerId(r, m)) == AnswerId(r, m) && Trim(ReviewerId(r)) == ReviewerId(r)
  {
    var id := AnswerId(r, m);
    var d := Padded(n, 5);
    assert d[|d| - 1] in d && id[|id| - 1] == d[|d| - 1];
    assert id[0] == 'a';
    NothingToTrim(id);
    NothingToTrim(ReviewerId(r));
  }

  lemma OnBoard(s: State, m: Message)
    requires BoardOk(s) && m in s.messages
    ensures m.id == MessageId(m.sequence)
    ensures FindMessage(s.messages, m.scope, m.id) == Some(m)
  {
    hide HistoryOk, ParticipantsOk, AcknowledgementsOk, MessageId, Padded;
    var k := IndexInScope(s.participants, s.messages, m);
    NumberedInOrder(s.participants, s.messages, m.scope, k);
    Findable(s.messages, m);
    var found := FindMessage(s.messages, m.scope, m.id).value;
    FoundIsThere(s.messages, m.scope, m.id);
    var j := IndexInScope(s.participants, s.messages, found);
    NumberedInOrder(s.participants, s.messages, m.scope, j);
    SameNumber(j + 1, k + 1);
  }

  lemma SameNumber(m: nat, n: nat)
    ensures MessageId(m) == MessageId(n) ==> m == n
  {
    if MessageId(m) == MessageId(n) {
      assert MessageId(m)[4..] == Padded(m, 5) && MessageId(n)[4..] == Padded(n, 5);
      PaddedIsInjective(m, n, 5);
    }
  }

  lemma {:induction false} Findable(ms: seq<Message>, m: Message)
    requires m in ms
    ensures FindMessage(ms, m.scope, m.id).Some?
  {
    if ms[0] != m { Findable(ms[1..], m); }
  }

  /* ---- Steps ---- */

  /** What one command can add to the acknowledgements. */
  lemma OnlyNewReceipt(s: State, scope: string, c: Command, allowed: seq<Context>, at: string)
    requires ApplyCommand(s, scope, c, allowed, at).Ok?
    ensures var t := ApplyCommand(s, scope, c, allowed, at).value;
      forall a | a in t.acknowledgements && a !in s.acknowledgements ::
        c.Acknowledge? && a.scope == scope && a.messageId == Trim(c.messageId)
          && a.participantId == Trim(c.participantId)
  {
    hide ParseParticipant, ParseDraft, Checked, Text, Trim, StableId;
    if c.Acknowledge? {
      assert Identifier(c.messageId).Ok? ==> Identifier(c.messageId).value == Trim(c.messageId) by {
        if Identifier(c.messageId).Ok? { IdentifierIsTrim(c.messageId); }
      }
      assert Identifier(c.participantId).Ok? ==> Identifier(c.participantId).value == Trim(c.participantId) by {
        if Identifier(c.participantId).Ok? { IdentifierIsTrim(c.participantId); }
      }
    }
    hide Identifier;
  }

  /** What one command can add to the messages. */
  lemma OnlyNewMessage(s: State, scope: string, c: Command, allowed: seq<Context>, at: string)
    requires ApplyCommand(s, scope, c, allowed, at).Ok?
    ensures var t := ApplyCommand(s, scope, c, allowed, at).value;
      forall x | x in t.messages && x !in s.messages ::
        c.Post? && ParseDraft(c.message, allowed).Ok? && x.draft == ParseDraft(c.message, allowed).value
        && x.draft.authorId == Trim(c.message.authorId)
  {
    hide ParseParticipant, Checked, Text, Trim, StableId, HighWater, MessageId;
    if c.Post? { AuthorIsTrimmed(c.message, allowed); }
    hide ParseDraft, Identifier;
  }

  lemma AuthorIsTrimmed(m: Draft, allowed: seq<Context>)
    requires ParseDraft(m, allowed).Ok?
    ensures ParseDraft(m, allowed).value.authorId == Trim(m.authorId)
  {
    hide Trim, StableId, Choice, ParseContext, OptionalIdentifier;
  }

  /** The board after a command, when whatever it acknowledged as a reviewer was earned. */
  lemma BoardMoves(w: World, s: System, c: Command, at: string, t: State)
    requires Inv(w, s) && t == After(s.board, Entry(w.scope, c, at), w.allowed)
    requires forall a, r | a in t.acknowledgements && a !in s.board.acknowledgements :: ReceiptEarned(t, w.scope, a, r)
    requires forall x, r | x in t.messages && x !in s.board.messages :: IsAnswer(x, w.scope, r)
    ensures Extends(s.board, t) && BoardOk(t) && ReceiptsEarned(t, w.scope) && OnlyAnswers(t, w.scope)
    ensures forall pid | pid in s.passes :: PassOk(w, t, s.passes[pid])
  {
    hide ReviewerId, TopicOf, TitleOf, AnswerId;
    hide ApplyCommand, BoardOk, PassOk, ReceiptEarned, IsAnswer;
    if ApplyCommand(s.board, w.scope, c, w.allowed, at).Ok? {
      AppliedExtends(s.board, w.scope, c, w.allowed, at);
      AppliedKeeps(s.board, w.scope, c, w.allowed, at);
    }
    forall a, r | a in t.acknowledgements ensures ReceiptEarned(t, w.scope, a, r) {
      if a in s.board.acknowledgements { EarnedStays(s.board, t, w.scope, a, r); }
    }
    forall pid | pid in s.passes ensures PassOk(w, t, s.passes[pid]) { PassStays(w, s.board, t, s.passes[pid]); }
  }

  lemma OthersKeep(w: World, s: System, c: Command, at: string)
    requires Inv(w, s) && ByOthers(c)
    ensures Inv(w, s.(board := After(s.board, Entry(w.scope, c, at), w.allowed)))
  {
    hide TopicOf, TitleOf, AnswerId;
    var t := After(s.board, Entry(w.scope, c, at), w.allowed);
    if ApplyCommand(s.board, w.scope, c, w.allowed, at).Ok? {
      OnlyNewReceipt(s.board, w.scope, c, w.allowed, at);
      OnlyNewMessage(s.board, w.scope, c, w.allowed, at);
    }
    hide ApplyCommand, Trim, ParseDraft, ReviewerId;
    forall a, r | a in t.acknowledgements && a !in s.board.acknowledgements ensures ReceiptEarned(t, w.scope, a, r) {
      assert r == ContractReview || r == CandidateBuildReview;
    }
    forall x, r | x in t.messages && x !in s.board.messages ensures IsAnswer(x, w.scope, r) {
      assert r == ContractReview || r == CandidateBuildReview;
    }
    hide BoardOk, PassOk, ReceiptEarned, IsAnswer;
    BoardMoves(w, s, c, at, t);
  }

  /** An answer acknowledges nothing, and is written as an answer. */
  lemma AnswerMoves(w: World, s: System, r: Reviewer, m: Message, body: string, at: string)
    requires Inv(w, s) && m in s.board.messages && m.scope == w.scope
    requires r == CandidateBuildReview ==> |body| <= 3500
    ensures var t := After(s.board, Entry(w.scope, Post(AnswerTo(r, m, body)), at), w.allowed);
      && Extends(s.board, t) && BoardOk(t) && ReceiptsEarned(t, w.scope) && OnlyAnswers(t, w.scope)
      && forall pid | pid in s.passes :: PassOk(w, t, s.passes[pid])
  {
    hide ReviewerId, TopicOf, TitleOf, ApplyCommand, BoardOk, PassOk, ReceiptEarned, ParseDraft, Trim, MessageId;
    var c := Post(AnswerTo(r, m, body));
    var t := After(s.board, Entry(w.scope, c, at), w.allowed);
    OnBoard(s.board, m);
    AnswerIdIsPlain(r, m, m.sequence);
    MessageIdIsPlain(m.sequence);
    if ApplyCommand(s.board, w.scope, c, w.allowed, at).Ok? {
      OnlyNewReceipt(s.board, w.scope, c, w.allowed, at);
      OnlyNewMessage(s.board, w.scope, c, w.allowed, at);
    }
    forall x, q | x in t.messages && x !in s.board.messages ensures IsAnswer(x, w.scope, q) {
      ParsedAnswer(w, r, m, body);
      ReviewersDiffer(q, r);
    }
    hide AnswerTo, AnswerId, IsAnswer;
    BoardMoves(w, s, c, at, t);
  }

  /** An accepted answer is a saved result. */
  lemma AcceptedAnswerIsSaved(w: World, s: State, r: Reviewer, m: Message, body: string, at: string)
    requires BoardOk(s) && m in s.messages && m.scope == w.scope
    requires ApplyCommand(s, w.scope, Post(AnswerTo(r, m, body)), w.allowed, at).Ok?
    ensures ResultSaved(ApplyCommand(s, w.scope, Post(AnswerTo(r, m, body)), w.allowed, at).value, r, m)
  {
    hide Checked, HistoryOk, ParticipantsOk, AcknowledgementsOk, Trim, MessageId, HighWater, MessagesIn;
    OnBoard(s, m);
    AnswerIdIsPlain(r, m, m.sequence);
    MessageIdIsPlain(m.sequence);
    var d := ParseDraft(AnswerTo(r, m, body), w.allowed).value;
    ParsedAnswer(w, r, m, body);
    hide ParseDraft, AnswerTo, AnswerId;
    var t := ApplyCommand(s, w.scope, Post(AnswerTo(r, m, body)), w.allowed, at).value;
    if FindRequest(s.messages, w.scope, d.authorId, d.requestId).None? {
      NewRequestFound(s.messages, t.messages[|s.messages|]);
    }
  }

  lemma ParsedAnswer(w: World, r: Reviewer, m: Message, body: string)
    requires ParseDraft(AnswerTo(r, m, body), w.allowed).Ok?
    requires Trim(AnswerId(r, m)) == AnswerId(r, m) && Trim(ReviewerId(r)) == ReviewerId(r) && Trim(m.id) == m.id
    ensures var d := ParseDraft(AnswerTo(r, m, body), w.allowed).value;
      && d.requestId == AnswerId(r, m) && d.authorId == ReviewerId(r) && d.kind == "RESULT" && d.replyTo == Some(m.id)
      && |d.body| <= |body|
  {
    TrimIsBetweenBlanks(body);
    hide Trim, StableId, AnswerId, ReviewerId, TitleOf;
  }

  lemma Replaced(w: World, s: System, t: System, pid: nat)
    requires pid in s.passes && pid in t.passes && t.passes == s.passes[pid := t.passes[pid]]
    requires BoardOk(t.board) && ReceiptsEarned(t.board, w.scope) && OnlyAnswers(t.board, w.scope)
    requires (forall q | q in s.passes :: PassOk(w, t.board, s.passes[q])) && PassOk(w, t.board, t.passes[pid])
    ensures Inv(w, t)
  {
    hide ReviewerId, TopicOf, TitleOf, AnswerId;
    hide BoardOk, ReceiptsEarned, OnlyAnswers, PassOk;
  }

  lemma MovesOn(w: World, s: State, p: Pass, place: Place)
    requires PassOk(w, s, p) && HasRequest(p.place)
    requires HasRequest(place) ==> place.request == p.place.request
    requires place.Acknowledging? ==> ResultSaved(s, p.reviewer, place.request)
    ensures PassOk(w, s, p.(place := place))
  {
    hide ReviewerId, TopicOf, TitleOf, AnswerId;
    hide ResultSaved, Handles;
  }

  /** The board has moved and the pass goes on with its request, or stops. */
  lemma GoesOn(w: World, s: System, pid: nat, b: State, place: Place)
    requires pid in s.passes && HasRequest(s.passes[pid].place)
    requires BoardOk(b) && ReceiptsEarned(b, w.scope) && OnlyAnswers(b, w.scope)
      && forall q | q in s.passes :: PassOk(w, b, s.passes[q])
    requires HasRequest(place) ==> place.request == s.passes[pid].place.request
    requires place.Acknowledging? ==> ResultSaved(b, s.passes[pid].reviewer, place.request)
    ensures Inv(w, Put(s.(board := b), pid, place))
  {
    hide BoardOk, ReceiptsEarned, OnlyAnswers, PassOk, ResultSaved;
    MovesOn(w, b, s.passes[pid], place);
    Replaced(w, s, Put(s.(board := b), pid, place), pid);
  }

  lemma SendKeeps(w: World, s: System, pid: nat, body: string, call: Call)
    requires Inv(w, s)
    ensures Inv(w, Next(w, s, SendAnswer(pid, body, call)))
  {
    hide BoardOk, ReceiptsEarned, OnlyAnswers, ApplyCommand, AnswerTo, ResultSaved, Handles, After;
    if pid in s.passes && s.passes[pid].place.Posting? {
      var p := s.passes[pid];
      hide PassOk;
      var m := p.place.request;
      if p.reviewer == CandidateBuildReview && (!w.valid(body, m) || |body| > 3500) {
        GoesOn(w, s, pid, s.board, Stopped);
        assert s.(board := s.board) == s;
        return;
      }
      var c := Post(AnswerTo(p.reviewer, m, body));
      var b := Called(w, s.board, c, call);
      RequestIsThere(w, s.board, p);
      if call.arrives { AnswerMoves(w, s, p.reviewer, m, body, call.at); }
      if p.reviewer == CandidateBuildReview {
        GoesOn(w, s, pid, b, ReadingBack(m));
      } else if Succeeded(w, s.board, c, call) {
        AcceptedAnswerIsSaved(w, s.board, p.reviewer, m, body, call.at);
        AfterAccepted(w, s.board, c, call.at);
        GoesOn(w, s, pid, b, Acknowledging(m));
      } else {
        GoesOn(w, s, pid, b, Stopped);
      }
      hide Inv;
    }
  }

  lemma RequestIsThere(w: World, s: State, p: Pass)
    requires PassOk(w, s, p) && HasRequest(p.place)
    ensures p.place.request in s.messages && p.place.request.scope == w.scope
  {
    hide Handles, ResultSaved;
  }

  lemma AfterAccepted(w: World, s: State, c: Command, at: string)
    requires ApplyCommand(s, w.scope, c, w.allowed, at).Ok?
    ensures After(s, Entry(w.scope, c, at), w.allowed) == ApplyCommand(s, w.scope, c, w.allowed, at).value
  {
    hide ApplyCommand;
  }

  lemma UsableIsSaved(s: State, r: Reviewer, m: Message, valid: (string, Message) -> bool)
    requires PriorAnswer(s, r, m, valid) == Usable
    ensures ResultSaved(s, r, m)
  {
    hide ReviewerId, TopicOf, TitleOf, AnswerId;
  }

  lemma ReadingKeeps(w: World, s: System, e: Event)
    requires Inv(w, s) && (e.Look? || e.ReadBack?)
    ensures Inv(w, Next(w, s, e))
  {
    hide BoardOk, ReceiptsEarned, OnlyAnswers, ResultSaved, Handles, PriorAnswer, PassOk;
    var pid := e.pid;
    if pid in s.passes && (s.passes[pid].place.Looking? || s.passes[pid].place.ReadingBack?) {
      var p := s.passes[pid];
      var m := p.place.request;
      if PriorAnswer(s.board, p.reviewer, m, w.valid) == Usable {
        UsableIsSaved(s.board, p.reviewer, m, w.valid);
        GoesOn(w, s, pid, s.board, Acknowledging(m));
      }
      GoesOn(w, s, pid, s.board, Posting(m));
      GoesOn(w, s, pid, s.board, Stopped);
      assert s.(board := s.board) == s;
    }
    hide Inv;
  }

  lemma AcknowledgeKeeps(w: World, s: System, pid: nat, call: Call)
    requires Inv(w, s)
    ensures Inv(w, Next(w, s, SendReceipt(pid, call)))
  {
    hide ReviewerId, TopicOf, TitleOf, AnswerId;
    if pid in s.passes && s.passes[pid].place.Acknowledging? {
      var p := s.passes[pid];
      assert PassOk(w, s.board, p);
      var m := p.place.request;
      var c := Acknowledge(m.id, ReviewerId(p.reviewer));
      var t := Next(w, s, SendReceipt(pid, call));
      if call.arrives {
        EarnedByThis(w, s.board, p.reviewer, m, call.at);
        if ApplyCommand(s.board, w.scope, c, w.allowed, call.at).Ok? {
          OnlyNewMessage(s.board, w.scope, c, w.allowed, call.at);
        }
        hide ApplyCommand, BoardOk, ReceiptEarned, PassOk, ParseDraft, IsAnswer;
        BoardMoves(w, s, c, call.at, t.board);
      }
      hide ApplyCommand, BoardOk, ReceiptsEarned, OnlyAnswers, ResultSaved, Handles;
      Replaced(w, s, t, pid);
    }
  }

  lemma EarnedByThis(w: World, s: State, r: Reviewer, m: Message, at: string)
    requires BoardOk(s) && m in s.messages && m.scope == w.scope && Handles(r, m) && ResultSaved(s, r, m)
    ensures var t := After(s, Entry(w.scope, Acknowledge(m.id, ReviewerId(r)), at), w.allowed);
      forall a, q | a in t.acknowledgements && a !in s.acknowledgements :: ReceiptEarned(t, w.scope, a, q)
  {
    hide ReviewerId, TopicOf, TitleOf, AnswerId, ApplyCommand, BoardOk, Trim, MessageId, Handles, ResultSaved;
    var c := Acknowledge(m.id, ReviewerId(r));
    var t := After(s, Entry(w.scope, c, at), w.allowed);
    OnBoard(s, m);
    MessageIdIsPlain(m.sequence);
    AnswerIdIsPlain(r, m, m.sequence);
    if ApplyCommand(s, w.scope, c, w.allowed, at).Ok? {
      OnlyNewReceipt(s, w.scope, c, w.allowed, at);
      AppliedExtends(s, w.scope, c, w.allowed, at);
      MessageStays(s.messages, t.messages, m.scope, m.id);
      ResultStays(s, t, r, m);
    }
    forall a, q | a in t.acknowledgements && a !in s.acknowledgements ensures ReceiptEarned(t, w.scope, a, q) {
      ReviewersDiffer(q, r);
    }
  }

  lemma ReviewersDiffer(q: Reviewer, r: Reviewer)
    ensures ReviewerId(q) == ReviewerId(r) ==> q == r
  {
    assert ReviewerId(ContractReview)[6] == 'c' && ReviewerId(CandidateBuildReview)[7] == 'a';
  }

  lemma QuietKeeps(w: World, s: System, e: Event)
    requires Inv(w, s) && (e.Start? || e.Take? || e.Crash?)
    ensures Inv(w, Next(w, s, e))
  {
    hide ReviewerId, TopicOf, TitleOf, AnswerId;
    hide BoardOk, ReceiptsEarned, OnlyAnswers, ResultSaved, Handles;
    if e.Start? {
      assert PassOk(w, s.board, Pass(e.reviewer, Scanning));
    } else if e.pid in s.passes {
      assert PassOk(w, s.board, s.passes[e.pid]);
      Replaced(w, s, Next(w, s, e), e.pid);
    }
  }
}
