/**
 One bounded pass of a review worker, as the loop it is (src/coordination/contract-review.ts,
 src/coordination/candidate-build-review.ts), with everybody else on the board between its calls.
 */
module ReviewPass {
  import opened Basics
  import opened Board
  import opened BoardHistory
  import opened BoardInbox
  import opened BoardWorkers
  import opened WorkerInvariants
  import opened WorkerPromises

  /** The most answers one pass may be asked for. */
  function LimitOf(r: Reviewer): int { match r case ContractReview => 100 case CandidateBuildReview => 25 }

  datatype Outcome = Finished(processed: nat, recovered: nat, skipped: nat, scanComplete: bool) | Failed

  /** A system some run leads to. */
  ghost predicate Reachable(w: World, start: State, s: System) {
    exists events :: BoardWorkers.Run(w, start, events) == s
  }

  lemma ReachNext(w: World, start: State, s: System, e: Event)
    requires Reachable(w, start, s)
    ensures Reachable(w, start, Next(w, s, e))
  {
    hide Next;
    var events :| BoardWorkers.Run(w, start, events) == s;
    assert (events + [e])[..|events|] == events;
    assert BoardWorkers.Run(w, start, events + [e]) == Next(w, s, e);
  }

  lemma ReachableKeeps(w: World, start: State, s: System)
    requires BoardOk(start) && ReceiptsEarned(start, w.scope) && OnlyAnswers(start, w.scope) && Reachable(w, start, s)
    ensures WorkerInvariants.Inv(w, s)
  {
    hide BoardWorkers.Run, BoardOk, WorkerInvariants.Inv;
    var events :| BoardWorkers.Run(w, start, events) == s;
    WorkerPromises.EveryRunKeeps(w, start, events);
  }

  predicate Answered(s: State, scope: string, r: Reviewer, m: Message) {
    Acknowledged(s.acknowledgements, scope, m.id, ReviewerId(r))
  }

  /** Every request of the reviewer's up to a place on the board is acknowledged. */
  ghost predicate Covered(s: State, scope: string, r: Reviewer, upTo: int) {
    upTo <= |MessagesIn(s.messages, scope)|
    && forall m | Belongs(s, scope, m) && Handles(r, m) && m.sequence <= upTo :: Answered(s, scope, r, m)
  }

  function InboxQuery(r: Reviewer, after: int): Query { Query(ReviewerId(r), after, 100, false, false, None) }

  /** A request that the inbox leaves out although it is the reviewer's has been acknowledged already. */
  lemma LeftOutIsAnswered(w: World, s: State, r: Reviewer, m: Message, after: int)
    requires BoardOk(s) && OnlyAnswers(s, w.scope) && Belongs(s, w.scope, m) && Handles(r, m)
    requires FindParticipant(s.participants, w.scope, ReviewerId(r)).Some?
    requires !Eligible(s, w.scope, InboxQuery(r, after), m)
    ensures Answered(s, w.scope, r, m)
  {
    hide HistoryOk, ParticipantsOk, AcknowledgementsOk, ReviewerId, TopicOf;
    assert IsAnswer(m, w.scope, r);
    var actor := FindParticipant(s.participants, w.scope, ReviewerId(r)).value;
    FoundParticipant(s.participants, w.scope, ReviewerId(r));
    if m.draft.context.Some? { RecipientMayRead(s.participants, s.messages, m, ReviewerId(r)); }
  }

  lemma {:induction false} FoundParticipant(ps: seq<Participant>, scope: string, id: string)
    requires FindParticipant(ps, scope, id).Some?
    ensures FindParticipant(ps, scope, id).value.id == id
  {
    if !(ps[0].scope == scope && ps[0].id == id) { FoundParticipant(ps[1..], scope, id); }
  }

  /** A directed message's recipient declares the message's domain. */
  lemma {:induction false} RecipientMayRead(ps: seq<Participant>, ms: seq<Message>, m: Message, id: string)
    requires HistoryOk(ps, ms) && m in ms && m.draft.recipientId == Some(id) && m.draft.context.Some?
    ensures var actor := FindParticipant(ps, m.scope, id);
      actor.Some? && m.draft.context.value.domain in actor.value.domains
  {
    hide MessageId;
    var before, last := ms[..|ms| - 1], ms[|ms| - 1];
    assert ms == before + [last];
    if m in before {
      RecipientMayRead(ps, before, m, id);
    } else {
      assert AdmittedMessage(ps, before, last) && m == last;
    }
  }

  /** What a page's messages cover, together with what was covered before it. */
  lemma PageCovers(w: World, s: State, t: State, r: Reviewer, after: int, p: Page)
    requires BoardOk(s) && BoardOk(t) && OnlyAnswers(s, w.scope) && Extends(s, t)
    requires InboxFor(s, w.scope, InboxQuery(r, after)) == Served(p)
    requires Covered(s, w.scope, r, after)
    requires forall m | m in p.messages && Handles(r, m) :: Answered(t, w.scope, r, m)
    ensures Covered(t, w.scope, r, p.nextSequence)
  {
    hide HistoryOk, ParticipantsOk, AcknowledgementsOk, Handles, InboxFor, Eligible, ReviewerId;
    PageIsExact(s, w.scope, InboxQuery(r, after));
    ScopeGrows(s.messages, t.messages, w.scope);
    forall m | Belongs(t, w.scope, m) && Handles(r, m) && m.sequence <= p.nextSequence
      ensures Answered(t, w.scope, r, m) {
      NothingBecomesEligible(s, t, w.scope, InboxQuery(r, after), m);
      if m.sequence <= after {
        AcknowledgedStays(s.acknowledgements, t.acknowledgements, w.scope, m.id, ReviewerId(r));
      } else if Eligible(s, w.scope, InboxQuery(r, after), m) {
        assert m in p.messages;
      } else {
        LeftOutIsAnswered(w, s, r, m, after);
        AcknowledgedStays(s.acknowledgements, t.acknowledgements, w.scope, m.id, ReviewerId(r));
      }
    }
  }

  /** A message up to the end of an earlier board was on it. */
  lemma BelongsEarlier(s: State, t: State, scope: string, m: Message)
    requires BoardOk(s) && BoardOk(t) && Extends(s, t) && Belongs(t, scope, m)
      && m.sequence <= |MessagesIn(s.messages, scope)|
    ensures Belongs(s, scope, m)
  {
    hide HistoryOk, ParticipantsOk, AcknowledgementsOk;
    ScopeGrows(s.messages, t.messages, scope);
    var k := IndexInScope(t.participants, t.messages, m);
    NumberedInOrder(t.participants, t.messages, scope, k);
    NumberedInOrder(s.participants, s.messages, scope, k);
  }

  /** What was covered stays covered, whoever posts after it. */
  lemma CoveredStays(s: State, t: State, scope: string, r: Reviewer, upTo: int)
    requires BoardOk(s) && BoardOk(t) && Extends(s, t) && Covered(s, scope, r, upTo)
    ensures Covered(t, scope, r, upTo)
  {
    hide BoardOk, Handles, Belongs, ReviewerId;
    ScopeGrows(s.messages, t.messages, scope);
    forall m | Belongs(t, scope, m) && Handles(r, m) && m.sequence <= upTo ensures Answered(t, scope, r, m) {
      BelongsEarlier(s, t, scope, m);
      AcknowledgedStays(s.acknowledgements, t.acknowledgements, scope, m.id, ReviewerId(r));
    }
  }

  /** Nothing but results came after a page was read, so nobody asked for anything more. */
  ghost predicate OnlyResultsSince(s: State, t: State) {
    forall m | m in t.messages && m !in s.messages :: m.draft.kind == "RESULT"
  }

  /**
   When a page says there is no more, all that was asked by then is covered; and all there is, if only results came
   since.
   */
  lemma LastPageCoversAll(w: World, s: State, t: State, r: Reviewer, after: int, p: Page)
    requires BoardOk(s) && BoardOk(t) && Extends(s, t)
    requires InboxFor(s, w.scope, InboxQuery(r, after)) == Served(p) && !p.hasMore
    requires Covered(t, w.scope, r, p.nextSequence)
    ensures forall m | Belongs(s, w.scope, m) && Handles(r, m) :: Answered(t, w.scope, r, m)
    ensures OnlyResultsSince(s, t) ==> forall m | Belongs(t, w.scope, m) && Handles(r, m) :: Answered(t, w.scope, r, m)
  {
    hide BoardOk, InboxFor, Eligible, ReviewerId, TopicOf;
    PageIsExact(s, w.scope, InboxQuery(r, after));
    NoneBeyond(s, w.scope);
  }

  /* ---- Everybody else, between the calls of a pass ---- */

  /** What is done by others, or by another pass. */
  predicate Elsewhere(e: Event) {
    match e
    case Others(_, _) => true
    case _ => e.pid != 0
  }

  /** What happens elsewhere is not moved by this pass being there, nor moves it. */
  lemma ElsewhereMoves(w: World, board: State, others: map<nat, Pass>, p: Pass, e: Event)
    requires 0 !in others && Elsewhere(e)
    ensures var t := Next(w, System(board, others), e);
      0 !in t.passes && Next(w, System(board, others[0 := p]), e) == System(t.board, t.passes[0 := p])
  {
    hide After, PriorAnswer, Succeeded, Called, Handles;
    var s, t := System(board, others[0 := p]), Next(w, System(board, others), e);
    assert Next(w, s, e).board == t.board;
    assert Next(w, s, e).passes == t.passes[0 := p];
  }

  /** Whatever happens, the board only grows. */
  lemma NextExtends(w: World, s: System, e: Event)
    ensures Extends(s.board, Next(w, s, e).board)
  {
    hide PriorAnswer, Handles, AnswerTo, ReviewerId, ApplyCommand;
    match e
    case Others(c, at) => CommandExtends(w, s.board, c, at);
    case SendAnswer(pid, body, call) =>
      if pid in s.passes && s.passes[pid].place.Posting? {
        CommandExtends(w, s.board, Post(AnswerTo(s.passes[pid].reviewer, s.passes[pid].place.request, body)), call.at);
      }
    case SendReceipt(pid, call) =>
      if pid in s.passes && s.passes[pid].place.Acknowledging? {
        var reviewer := ReviewerId(s.passes[pid].reviewer);
        CommandExtends(w, s.board, Acknowledge(s.passes[pid].place.request.id, reviewer), call.at);
      }
    case _ =>
  }

  lemma CommandExtends(w: World, s: State, c: Command, at: string)
    ensures Extends(s, s) && Extends(s, After(s, Entry(w.scope, c, at), w.allowed))
  {
    hide ApplyCommand;
    if ApplyCommand(s, w.scope, c, w.allowed, at).Ok? { AppliedExtends(s, w.scope, c, w.allowed, at); }
  }

  datatype Handled = Processed | Recovered | Abandoned

  /** At some time from one board to a later one, this is what the board held as the answer to a request. */
  ghost predicate Met(w: World, s: State, t: State, r: Reviewer, m: Message, prior: Prior) {
    exists u :: Extends(s, u) && Extends(u, t) && PriorAnswer(u, r, m, w.valid) == prior
  }

  lemma MeetsHere(w: World, s: State, u: State, t: State, r: Reviewer, m: Message)
    requires Extends(s, u) && Extends(u, t)
    ensures Met(w, s, t, r, m, PriorAnswer(u, r, m, w.valid))
  {
    hide Extends, PriorAnswer;
  }

  lemma MetWithin(w: World, s: State, u: State, v: State, t: State, r: Reviewer, m: Message, prior: Prior)
    requires Met(w, u, v, r, m, prior) && Extends(s, u) && Extends(v, t)
    ensures Met(w, s, t, r, m, prior)
  {
    hide Extends, PriorAnswer;
    var x :| Extends(u, x) && Extends(x, v) && PriorAnswer(x, r, m, w.valid) == prior;
    ExtendsThrough(s, u, x);
    ExtendsThrough(x, v, t);
  }

  /** What a pass counted: requests it answered, requests whose answer it found, messages it passed over. */
  datatype Tally = Tally(done: seq<Message>, found: seq<Message>, passed: seq<Message>)

  ghost predicate TallyOk(w: World, s: State, t: State, r: Reviewer, tally: Tally) {
    && (forall m | m in tally.done ::
          Handles(r, m) && Answered(t, w.scope, r, m) && ResultSaved(t, r, m) && Met(w, s, t, r, m, NoPrior))
    && (forall m | m in tally.found ::
          Handles(r, m) && Answered(t, w.scope, r, m) && ResultSaved(t, r, m) && Met(w, s, t, r, m, Usable))
    && forall m | m in tally.passed :: !Handles(r, m)
  }

  lemma NothingTallied(w: World, s: State, t: State, r: Reviewer)
    ensures TallyOk(w, s, t, r, Tally([], [], []))
  {
  }

  lemma TallyStays(w: World, s: State, t: State, u: State, r: Reviewer, tally: Tally)
    requires TallyOk(w, s, t, r, tally) && Extends(t, u)
    ensures TallyOk(w, s, u, r, tally)
  {
    hide Handles, ReviewerId, ResultSaved, Met, Extends, Answered;
    assert Extends(s, s) by { NoneSince(s); }
    forall m | m in tally.done + tally.found ensures Answered(u, w.scope, r, m) && ResultSaved(u, r, m) {
      AnswerStays(w, t, u, r, m);
    }
    forall m | m in tally.done ensures Met(w, s, u, r, m, NoPrior) { MetWithin(w, s, s, t, u, r, m, NoPrior); }
    forall m | m in tally.found ensures Met(w, s, u, r, m, Usable) { MetWithin(w, s, s, t, u, r, m, Usable); }
  }

  lemma AnswerStays(w: World, s: State, t: State, r: Reviewer, m: Message)
    requires Extends(s, t) && Answered(s, w.scope, r, m) && ResultSaved(s, r, m)
    ensures Answered(t, w.scope, r, m) && ResultSaved(t, r, m)
  {
    hide ResultSaved;
    AcknowledgedStays(s.acknowledgements, t.acknowledgements, w.scope, m.id, ReviewerId(r));
    ResultStays(s, t, r, m);
  }

  lemma TallyPassed(w: World, s: State, t: State, r: Reviewer, tally: Tally, m: Message)
    requires TallyOk(w, s, t, r, tally) && !Handles(r, m)
    ensures TallyOk(w, s, t, r, tally.(passed := tally.passed + [m]))
  {
    hide Handles, ResultSaved, Met, Answered;
  }

  lemma TallyCounted(w: World, s: State, t: State, r: Reviewer, tally: Tally, m: Message, done: Handled)
    requires TallyOk(w, s, t, r, tally) && Counted(w, s, t, r, m, done)
    requires Handles(r, m) && Answered(t, w.scope, r, m) && ResultSaved(t, r, m)
    ensures done == Processed ==> TallyOk(w, s, t, r, tally.(done := tally.done + [m]))
    ensures done == Recovered ==> TallyOk(w, s, t, r, tally.(found := tally.found + [m]))
  {
    hide Handles, ResultSaved, Met, Answered;
  }

  /** A request was answered because the board held no answer to it, or taken up because it held a usable one. */
  ghost predicate Counted(w: World, s: State, t: State, r: Reviewer, m: Message, done: Handled) {
    && (done == Processed ==> Met(w, s, t, r, m, NoPrior))
    && (done == Recovered ==> Met(w, s, t, r, m, Usable))
  }

  lemma CountsNothing(w: World, s: State, t: State, r: Reviewer, m: Message)
    ensures Counted(w, s, t, r, m, Abandoned)
  {
  }

  lemma CountedWithin(w: World, s: State, u: State, v: State, t: State, r: Reviewer, m: Message, done: Handled)
    requires Counted(w, u, v, r, m, done) && Extends(s, u) && Extends(v, t)
    ensures Counted(w, s, t, r, m, done)
  {
    hide Met, Extends;
    if done == Processed { MetWithin(w, s, u, v, t, r, m, NoPrior); }
    if done == Recovered { MetWithin(w, s, u, v, t, r, m, Usable); }
  }

  /**
   A worker's side of the board. Before its n-th call everybody else does `turns(n)`, other passes of the same reviewer
   among them, and `fates(n)` says whether the call arrives and is answered.
   */
  class Client {
    const w: World
    const turns: nat -> seq<Event>
    const fates: nat -> Call
    var board: State
    var others: map<nat, Pass>
    var calls: nat

    constructor (w: World, board: State, turns: nat -> seq<Event>, fates: nat -> Call)
      ensures this.w == w && this.board == board && this.turns == turns && this.fates == fates && others == map[]
        && calls == 0
      ensures Reachable(w, board, System(board, others))
    {
      this.w, this.board, this.turns, this.fates, others, calls := w, board, turns, fates, map[], 0;
      StartsThere(w, board);
    }

    /** The system with this pass at a place, reached from the start of the run. */
    ghost predicate At(start: State, r: Reviewer, place: Place)
      reads this
    {
      0 !in others && Reachable(w, start, System(board, others[0 := Pass(r, place)]))
    }

    /** Everybody else's turn before a call, and what becomes of the call. */
    method Await(ghost start: State, ghost r: Reviewer, ghost place: Place) returns (call: Call)
      requires At(start, r, place)
      modifies this
      ensures At(start, r, place) && Extends(old(board), board) && calls > old(calls)
    {
      hide Reachable, Next, Extends, Elsewhere;
      var events := turns(calls);
      call := fates(calls);
      calls := calls + 1;
      NoneSince(board);
      for i := 0 to |events|
        invariant At(start, r, place) && Extends(old(board), board) && calls > old(calls)
      {
        if Elsewhere(events[i]) {
          var s := System(board, others);
          var t := Next(w, s, events[i]);
          ElsewhereMoves(w, board, others, Pass(r, place), events[i]);
          ReachNext(w, start, System(board, others[0 := Pass(r, place)]), events[i]);
          NextExtends(w, s, events[i]);
          ExtendsThrough(old(board), board, t.board);
          board, others := t.board, t.passes;
        }
      }
    }

    /** The pass moves from one place to another by a step of its own. */
    ghost method Goes(start: State, r: Reviewer, before: State, from: Place, e: Event, to: Place)
      requires 0 !in others && Reachable(w, start, System(before, others[0 := Pass(r, from)]))
      requires Next(w, System(before, others[0 := Pass(r, from)]), e) == System(board, others[0 := Pass(r, to)])
      ensures At(start, r, to)
    {
      hide Reachable, Next;
      ReachNext(w, start, System(before, others[0 := Pass(r, from)]), e);
    }

    /** Posts an answer; a candidate review then reads back, since a lost response may have been a saved result. */
    method SendAnswer(r: Reviewer, m: Message, body: string, ghost start: State) returns (done: Handled)
      requires At(start, r, Posting(m)) && (r == CandidateBuildReview ==> w.valid(body, m) && |body| <= 3500)
      modifies this
      ensures Extends(old(board), board) && calls > old(calls) && exists place :: At(start, r, place)
      ensures !done.Abandoned? ==> At(start, r, Acknowledging(m))
      ensures done == Recovered ==> Met(w, old(board), board, r, m, Usable)
    {
      hide ApplyCommand, Reachable, PriorAnswer, ReviewerId, AnswerTo, Extends, Met;
      var post := Await(start, r, Posting(m));
      var command := Post(AnswerTo(r, m, body));
      var sent := Succeeded(w, board, command, post);
      ghost var before := board;
      CommandExtends(w, board, command, post.at);
      board := Called(w, board, command, post);
      ExtendsThrough(old(board), before, board);
      if r == ContractReview {
        Goes(start, r, before, Posting(m), Event.SendAnswer(0, body, post), if sent then Acknowledging(m) else Stopped);
        return if sent then Processed else Abandoned;
      }
      Goes(start, r, before, Posting(m), Event.SendAnswer(0, body, post), ReadingBack(m));
      ghost var posted := board;
      var back := Await(start, r, ReadingBack(m));
      ExtendsThrough(old(board), posted, board);
      if !back.answered { return Abandoned; }
      NoneSince(board);
      MeetsHere(w, old(board), board, board, r, m);
      var saved := PriorAnswer(board, r, m, w.valid) == Usable;
      Goes(start, r, board, ReadingBack(m), ReadBack(0), if saved then Acknowledging(m) else Stopped);
      return if !saved then Abandoned else if sent then Processed else Recovered;
    }

    /** Sees to it that a request has its result: an earlier one is used again, otherwise one is posted. */
    method Respond(r: Reviewer, m: Message, report: (State, Message) -> string, ghost start: State)
        returns (done: Handled)
      requires At(start, r, Scanning) && m in board.messages && m.scope == w.scope && Handles(r, m)
      modifies this
      ensures Extends(old(board), board) && calls > old(calls) && exists place :: At(start, r, place)
      ensures !done.Abandoned? ==> At(start, r, Acknowledging(m))
      ensures Counted(w, old(board), board, r, m, done)
    {
      hide Handles, ApplyCommand, Reachable, PriorAnswer, ReviewerId, AnswerTo, Extends, Met;
      var look := Await(start, r, Scanning);
      StillThere(old(board), board, m);
      if !look.answered { return Abandoned; }
      Goes(start, r, board, Scanning, Take(0, m), Looking(m));
      var prior := PriorAnswer(board, r, m, w.valid);
      Goes(start, r, board, Looking(m), Look(0),
           match prior case NoPrior => Posting(m) case Usable => Acknowledging(m) case Conflicting => Stopped);
      NoneSince(board);
      MeetsHere(w, old(board), board, board, r, m);
      if prior != NoPrior { return if prior == Usable then Recovered else Abandoned; }
      var body := report(board, m);
      if r == CandidateBuildReview && (!w.valid(body, m) || |body| > 3500) { return Abandoned; }
      ghost var looked := board;
      done := SendAnswer(r, m, body, start);
      ExtendsThrough(old(board), looked, board);
      NoneSince(looked);
      MeetsHere(w, old(board), looked, board, r, m);
      if done == Recovered {
        NoneSince(board);
        MetWithin(w, old(board), looked, board, board, r, m, Usable);
      }
    }

    /** Acknowledges a request whose result is on the board. */
    method Receive(r: Reviewer, m: Message, ghost start: State) returns (received: bool)
      requires BoardOk(start) && ReceiptsEarned(start, w.scope) && OnlyAnswers(start, w.scope)
      requires At(start, r, Acknowledging(m)) && m.id == MessageId(m.sequence)
      modifies this
      ensures Extends(old(board), board) && calls > old(calls) && exists place :: At(start, r, place)
      ensures received ==> At(start, r, Scanning) && Answered(board, w.scope, r, m) && ResultSaved(board, r, m)
    {
      hide BoardOk, ReceiptsEarned, OnlyAnswers, ApplyCommand, Reachable, ReviewerId, ResultSaved, Answered, Extends,
        MessageId;
      var receipt := Await(start, r, Acknowledging(m));
      var command := Acknowledge(m.id, ReviewerId(r));
      received := Succeeded(w, board, command, receipt);
      ghost var before := board;
      SavedBeforeReceipt(w, start, System(board, others[0 := Pass(r, Acknowledging(m))]), m);
      CommandExtends(w, board, command, receipt.at);
      board := Called(w, board, command, receipt);
      ExtendsThrough(old(board), before, board);
      Goes(start, r, before, Acknowledging(m), SendReceipt(0, receipt), if received then Scanning else Stopped);
      if received {
        AcknowledgedNow(w, before, r, m, receipt.at);
        ResultStays(before, board, r, m);
      }
    }

    /**
     Answers one request, then, and only then, acknowledges it. Between any two calls everybody else may act, and any
     call may fail or be answered uncertainly.
     */
    method HandleRequest(r: Reviewer, m: Message, report: (State, Message) -> string, ghost start: State)
      returns (done: Handled)
      requires BoardOk(start) && ReceiptsEarned(start, w.scope) && OnlyAnswers(start, w.scope)
      requires At(start, r, Scanning) && m in board.messages && m.scope == w.scope && Handles(r, m)
      modifies this
      ensures Extends(old(board), board) && calls > old(calls) && exists place :: At(start, r, place)
      ensures !done.Abandoned? ==> At(start, r, Scanning) && Answered(board, w.scope, r, m) && ResultSaved(board, r, m)
      ensures Counted(w, old(board), board, r, m, done)
    {
      hide BoardOk, ReceiptsEarned, OnlyAnswers, Handles, Reachable, ResultSaved, Answered, Extends, MessageId, Counted;
      RequestNamed(w, start, System(board, others[0 := Pass(r, Scanning)]), m);
      done := Respond(r, m, report, start);
      if done == Abandoned { return; }
      ghost var answered := board;
      var received := Receive(r, m, start);
      ExtendsThrough(old(board), answered, board);
      NoneSince(old(board));
      CountedWithin(w, old(board), old(board), answered, board, r, m, done);
      if !received {
        done := Abandoned;
        CountsNothing(w, old(board), board, r, m);
      }
    }

    /** Looks at the board, then registers the worker. */
    method Enrol(r: Reviewer, definition: Participant, ghost start: State) returns (enrolled: bool)
      requires At(start, r, Scanning)
      modifies this
      ensures At(start, r, Scanning) && Extends(old(board), board) && calls > old(calls)
    {
      hide ApplyCommand, Reachable, Extends;
      var initial := Await(start, r, Scanning);
      if !initial.answered { return false; }
      ghost var read := board;
      var register := Await(start, r, Scanning);
      ExtendsThrough(old(board), read, board);
      ghost var before := board;
      CommandExtends(w, board, Register(definition), register.at);
      enrolled := Succeeded(w, board, Register(definition), register);
      if register.arrives {
        board := Called(w, board, Register(definition), register);
        Goes(start, r, before, Scanning, Others(Register(definition), register.at), Scanning);
      }
      ExtendsThrough(old(board), before, board);
    }

    /**
     One bounded pass over the inbox, with everybody else on the board meanwhile. However it ends it has only taken the
     steps of a pass, and it counts at most `limit` answers. When the scan is complete, every request of the
     reviewer's on the board as of the last page it read is answered; and if nothing but results came after that, none
     is left at all. What it counts are requests: those it answered, those whose answer it found, and the messages it
     passed over; and it stops short only at its limit, or after fifty full pages.
     */
    method RunOnce(r: Reviewer, definition: Participant, report: (State, Message) -> string, limit: int,
        ghost start: State)
      returns (o: Outcome, ghost read: State, ghost tally: Tally)
      requires BoardOk(start) && ReceiptsEarned(start, w.scope) && OnlyAnswers(start, w.scope)
      requires 0 !in others && Reachable(w, start, System(board, others))
      modifies this
      ensures (exists place :: At(start, r, place)) && Extends(old(board), read) && Extends(read, board)
      ensures (1 <= limit <= match r case ContractReview => 100 case CandidateBuildReview => 25) <==> calls > old(calls)
      ensures calls == old(calls) ==> o == Failed && board == old(board)
      ensures o.Finished? ==>
        && o.processed == |tally.done| && o.recovered == |tally.found| && o.skipped == |tally.passed|
        && o.processed + o.recovered <= limit && TallyOk(w, old(board), board, r, tally)
      ensures o.Finished? && !o.scanComplete && o.processed + o.recovered < limit ==>
        o.processed + o.recovered + o.skipped == 5000
      ensures o.Finished? && o.scanComplete ==>
        forall m | Belongs(read, w.scope, m) && Handles(r, m) :: Answered(board, w.scope, r, m)
      ensures o.Finished? && o.scanComplete && OnlyResultsSince(read, board) ==>
        forall m | Belongs(board, w.scope, m) && Handles(r, m) :: Answered(board, w.scope, r, m)
    {
      hide BoardOk, ReceiptsEarned, OnlyAnswers, Handles, ApplyCommand, Reachable, ReviewerId, InboxFor, Answered,
        Belongs, Extends, OnlyResultsSince, Covered, Elsewhere, TallyOk;
      NoneSince(board);
      read := board;
      tally := Tally([], [], []);
      ReachNext(w, start, System(board, others), Start(0, r));
      assert At(start, r, Scanning);
      if limit < 1 || limit > LimitOf(r) { return Failed, read, tally; }
      var enrolled := Enrol(r, definition, start);
      read := board;
      NoneSince(board);
      if !enrolled { return Failed, read, tally; }
      var processed, recovered, skipped, afterSequence, scan := 0, 0, 0, 0, 0;
      NothingAtZero(w, start, System(board, others[0 := Pass(r, Scanning)]), r);
      NothingTallied(w, old(board), board, r);
      while scan < 50
        invariant 0 <= scan <= 50 && processed + recovered < limit && calls > old(calls)
        invariant processed == |tally.done| && recovered == |tally.found| && skipped == |tally.passed|
        invariant processed + recovered + skipped == 100 * scan && TallyOk(w, old(board), board, r, tally)
        invariant At(start, r, Scanning) && Extends(old(board), read) && Extends(read, board)
        invariant Covered(board, w.scope, r, afterSequence)
      {
        ghost var earlier, seen := read, board;
        ReachedOk(w, start, System(board, others[0 := Pass(r, Scanning)]));
        var fate := Await(start, r, Scanning);
        ExtendsThrough(earlier, seen, board);
        ExtendsThrough(old(board), earlier, board);
        ReachedOk(w, start, System(board, others[0 := Pass(r, Scanning)]));
        CoveredStays(seen, board, w.scope, r, afterSequence);
        read := board;
        NoneSince(read);
        var inbox := InboxFor(board, w.scope, InboxQuery(r, afterSequence));
        if !fate.answered || !inbox.Served? { return Failed, read, tally; }
        var page := inbox.page;
        TallyStays(w, old(board), seen, board, r, tally);
        ghost var at := System(board, others[0 := Pass(r, Scanning)]);
        PageIsMine(w, start, at, r, afterSequence, page);
        for i := 0 to |page.messages|
          invariant processed + recovered < limit && calls > old(calls)
          invariant processed == |tally.done| && recovered == |tally.found| && skipped == |tally.passed|
          invariant processed + recovered + skipped == 100 * scan + i && TallyOk(w, old(board), board, r, tally)
          invariant At(start, r, Scanning) && Extends(old(board), read) && Extends(read, board)
          invariant forall k | 0 <= k < i && Handles(r, page.messages[k]) ::
            Answered(board, w.scope, r, page.messages[k])
        {
          var m := page.messages[i];
          assert m in page.messages && m in read.messages && m.scope == w.scope;
          StillThere(read, board, m);
          if !Handles(r, m) {
            TallyPassed(w, old(board), board, r, tally, m);
            tally := tally.(passed := tally.passed + [m]);
            skipped := skipped + 1;
            continue;
          }
          ghost var unhandled := board;
          var done := HandleRequest(r, m, report, start);
          ExtendsThrough(read, unhandled, board);
          ExtendsThrough(old(board), read, unhandled);
          TallyStays(w, old(board), unhandled, board, r, tally);
          NoneSince(board);
          CountedWithin(w, old(board), unhandled, board, board, r, m, done);
          if done == Abandoned { return Failed, read, tally; }
          AnsweredStay(w, unhandled, board, r, page.messages[..i]);
          assert forall k | 0 <= k < i :: page.messages[..i][k] == page.messages[k];
          TallyCounted(w, old(board), board, r, tally, m, done);
          if done == Recovered {
            tally := tally.(found := tally.found + [m]);
            recovered := recovered + 1;
          } else {
            tally := tally.(done := tally.done + [m]);
            processed := processed + 1;
          }
          if processed + recovered >= limit { return Finished(processed, recovered, skipped, false), read, tally; }
        }
        PageDone(w, start, at, System(board, others[0 := Pass(r, Scanning)]), r, afterSequence, page);
        if !page.hasMore { return Finished(processed, recovered, skipped, true), read, tally; }
        if page.nextSequence <= afterSequence { return Failed, read, tally; }
        afterSequence := page.nextSequence;
        scan := scan + 1;
      }
      return Finished(processed, recovered, skipped, false), read, tally;
    }
  }

  /** A client at the start of a run, alone as yet. */
  lemma StartsThere(w: World, start: State)
    ensures Reachable(w, start, System(start, map[]))
  {
    assert BoardWorkers.Run(w, start, []) == System(start, map[]);
  }

  lemma ReachedOk(w: World, start: State, s: System)
    requires BoardOk(start) && ReceiptsEarned(start, w.scope) && OnlyAnswers(start, w.scope) && Reachable(w, start, s)
    ensures BoardOk(s.board)
  {
    hide BoardOk, Reachable, ReceiptsEarned, OnlyAnswers, PassOk;
    ReachableKeeps(w, start, s);
  }

  lemma StillThere(s: State, t: State, m: Message)
    requires Extends(s, t) && m in s.messages
    ensures m in t.messages
  {
  }

  /** A pass that is about to acknowledge has its result on the board. */
  lemma SavedBeforeReceipt(w: World, start: State, s: System, m: Message)
    requires BoardOk(start) && ReceiptsEarned(start, w.scope) && OnlyAnswers(start, w.scope) && Reachable(w, start, s)
    requires 0 in s.passes && s.passes[0].place == Acknowledging(m)
    ensures ResultSaved(s.board, s.passes[0].reviewer, m)
  {
    hide BoardOk, Reachable, ReceiptsEarned, OnlyAnswers, ResultSaved;
    ReachableKeeps(w, start, s);
    assert PassOk(w, s.board, s.passes[0]);
  }

  lemma RequestNamed(w: World, start: State, s: System, m: Message)
    requires BoardOk(start) && ReceiptsEarned(start, w.scope) && OnlyAnswers(start, w.scope) && Reachable(w, start, s)
    requires m in s.board.messages
    ensures m.id == MessageId(m.sequence)
  {
    hide BoardOk, Reachable, MessageId, ReceiptsEarned, OnlyAnswers, PassOk;
    ReachableKeeps(w, start, s);
    OnBoard(s.board, m);
  }

  lemma NothingAtZero(w: World, start: State, s: System, r: Reviewer)
    requires BoardOk(start) && ReceiptsEarned(start, w.scope) && OnlyAnswers(start, w.scope) && Reachable(w, start, s)
    ensures Covered(s.board, w.scope, r, 0)
  {
    hide BoardOk, Reachable, ReceiptsEarned, OnlyAnswers, PassOk, Handles;
    ReachableKeeps(w, start, s);
    NoneBeyond(s.board, w.scope);
  }

  lemma PageIsMine(w: World, start: State, s: System, r: Reviewer, after: int, p: Page)
    requires BoardOk(start) && ReceiptsEarned(start, w.scope) && OnlyAnswers(start, w.scope) && Reachable(w, start, s)
    requires InboxFor(s.board, w.scope, InboxQuery(r, after)) == Served(p)
    ensures forall m | m in p.messages :: m in s.board.messages && m.scope == w.scope
    ensures p.hasMore ==> |p.messages| == 100 && p.nextSequence > after
  {
    hide BoardOk, Reachable, ReceiptsEarned, OnlyAnswers, PassOk, InboxFor, Eligible;
    ReachableKeeps(w, start, s);
    PageIsExact(s.board, w.scope, InboxQuery(r, after));
  }

  lemma NoneSince(s: State)
    ensures Extends(s, s) && OnlyResultsSince(s, s)
  {
  }

  lemma ExtendsThrough(s: State, t: State, u: State)
    requires Extends(s, t) && Extends(t, u)
    ensures Extends(s, u)
  {
  }

  lemma AnsweredStay(w: World, s: State, t: State, r: Reviewer, ms: seq<Message>)
    requires Extends(s, t)
    ensures forall k | 0 <= k < |ms| :: Answered(s, w.scope, r, ms[k]) ==> Answered(t, w.scope, r, ms[k])
  {
    forall k | 0 <= k < |ms| && Answered(s, w.scope, r, ms[k]) ensures Answered(t, w.scope, r, ms[k]) {
      AcknowledgedStays(s.acknowledgements, t.acknowledgements, w.scope, ms[k].id, ReviewerId(r));
    }
  }

  /** After a page: the cursor covers what it passed, and the last page covers the board it was read from. */
  lemma PageDone(w: World, start: State, before: System, s: System, r: Reviewer, after: int, p: Page)
    requires BoardOk(start) && ReceiptsEarned(start, w.scope) && OnlyAnswers(start, w.scope)
    requires Reachable(w, start, before) && Reachable(w, start, s) && Extends(before.board, s.board)
    requires InboxFor(before.board, w.scope, InboxQuery(r, after)) == Served(p)
      && Covered(before.board, w.scope, r, after)
    requires forall k | 0 <= k < |p.messages| && Handles(r, p.messages[k]) ::
      Answered(s.board, w.scope, r, p.messages[k])
    ensures Covered(s.board, w.scope, r, p.nextSequence)
    ensures !p.hasMore ==> forall m | Belongs(before.board, w.scope, m) && Handles(r, m) ::
      Answered(s.board, w.scope, r, m)
    ensures !p.hasMore && OnlyResultsSince(before.board, s.board) ==>
      forall m | Belongs(s.board, w.scope, m) && Handles(r, m) :: Answered(s.board, w.scope, r, m)
  {
    hide BoardOk, Reachable, ReceiptsEarned, OnlyAnswers, PassOk, InboxFor, Handles, Answered, Covered, Extends,
      OnlyResultsSince;
    ReachableKeeps(w, start, before);
    ReachableKeeps(w, start, s);
    PageCovers(w, before.board, s.board, r, after, p);
    if !p.hasMore { LastPageCoversAll(w, before.board, s.board, r, after, p); }
  }

  lemma AcknowledgedNow(w: World, s: State, r: Reviewer, m: Message, at: string)
    requires m.id == MessageId(m.sequence)
    requires ApplyCommand(s, w.scope, Acknowledge(m.id, ReviewerId(r)), w.allowed, at).Ok?
    ensures var t := ApplyCommand(s, w.scope, Acknowledge(m.id, ReviewerId(r)), w.allowed, at).value;
      Extends(s, t) && t.messages == s.messages && Answered(t, w.scope, r, m)
  {
    hide MessageId, ReviewerId, FindMessage, FindParticipant, Text, StableId, Trim;
    MessageIdIsPlain(m.sequence);
    AnswerIdIsPlain(r, m, m.sequence);
    IdentifierIsTrim(m.id);
    IdentifierIsTrim(ReviewerId(r));
    hide Identifier;
    var t := ApplyCommand(s, w.scope, Acknowledge(m.id, ReviewerId(r)), w.allowed, at).value;
    if t != s { assert t.acknowledgements[|s.acknowledgements|] in t.acknowledgements; }
  }
}
