/**
 What an inbox page shows (src/coordination/inbox.ts), said of the board: who asks, where the cursor stands and what is
 to be seen from there.
 */
module BoardPages {
  import opened Basics
  import opened Board
  import opened BoardHistory
  import opened BoardInbox
  import opened BoardRules
  import opened Ordering

  ghost predicate QueryDeclared(q: Query) {
    && 0 <= q.afterSequence && 1 <= q.limit <= 100
    && (q.kind.Some? ==> q.kind.value in ["NOTE", "REQUEST", "HANDOFF", "BLOCKER", "RESULT"])
  }

  /**
   Sent by somebody else to this participant, or to all if it asks for that; under a domain the participant declares;
   of the kind it asks for; and not acknowledged by it, unless it asks for those too.
   */
  ghost predicate ToBeSeen(s: State, scope: string, q: Query, m: Message) {
    && m.draft.authorId != q.participantId
    && (m.draft.recipientId == Some(q.participantId) || (m.draft.recipientId == None && q.includeBroadcasts))
    && (m.draft.context.Some? ==>
          exists p :: Registered(s, scope, q.participantId, p) && m.draft.context.value.domain in p.domains)
    && (q.includeAcknowledged || !exists a | a in s.acknowledgements ::
          a.scope == scope && a.messageId == m.id && a.participantId == q.participantId)
    && (q.kind.Some? ==> m.draft.kind == q.kind.value)
  }

  lemma EligibleExactly(s: State, scope: string, q: Query, m: Message)
    requires BoardOk(s) && FindParticipant(s.participants, scope, q.participantId).Some?
    ensures Eligible(s, scope, q, m) <==> ToBeSeen(s, scope, q, m)
  {
    hide BoardOk, FindParticipant;
    var actor := FindParticipant(s.participants, scope, q.participantId).value;
    forall p ensures Registered(s, scope, q.participantId, p) <==> p == actor {
      FoundIsRegistered(s, scope, q.participantId, p);
    }
    assert Registered(s, scope, q.participantId, actor);
  }

  /** What a query is told: a page, or the one thing that is wrong with it. */
  ghost predicate AnswerDeclared(s: State, scope: string, q: Query, a: Answer) {
    if !QueryDeclared(q) then a == InvalidQuery
    else if forall p :: !Registered(s, scope, q.participantId, p) then a == NobodyRegistered
    else if q.afterSequence > |MessagesIn(s.messages, scope)| then a == CursorAhead
    else a.Served? && PageDeclared(s, scope, q, a.page)
  }

  /**
   In increasing order, all there is to see after the cursor and up to the next one; at most as many as asked for, the
   next cursor at the last of them when there is more and at the end of the board when there is not; and with them
   exactly the participant's own receipts for them.
   */
  ghost predicate PageDeclared(s: State, scope: string, q: Query, p: Page) {
    && Increasing(p.messages) && |p.messages| <= q.limit
    && (forall m :: m in p.messages <==>
          m in s.messages && m.scope == scope && ToBeSeen(s, scope, q, m)
          && q.afterSequence < m.sequence <= p.nextSequence)
    && p.highWaterSequence == |MessagesIn(s.messages, scope)|
    && (p.hasMore <==> exists m | m in s.messages && m.scope == scope ::
          ToBeSeen(s, scope, q, m) && m.sequence > p.nextSequence)
    && (p.hasMore ==> |p.messages| == q.limit)
    && p.nextSequence == (if p.hasMore && p.messages != [] then p.messages[|p.messages| - 1].sequence
                          else p.highWaterSequence)
    && (forall a :: a in p.acknowledgements <==>
          a in s.acknowledgements && a.scope == scope && a.participantId == q.participantId
          && exists m | m in p.messages :: m.id == a.messageId)
  }

  lemma {:induction false} ReceiptsExactly(acks: seq<Acknowledgement>, scope: string, id: string, ms: seq<Message>)
    ensures forall a :: a in ReceiptsFor(acks, scope, id, ms) <==>
      a in acks && a.scope == scope && a.participantId == id && exists m | m in ms :: m.id == a.messageId
  {
    if acks != [] {
      ReceiptsExactly(acks[1..], scope, id, ms);
      assert acks == [acks[0]] + acks[1..];
    }
  }

  lemma MoreExactly(s: State, scope: string, q: Query)
    requires BoardOk(s) && InboxFor(s, scope, q).Served?
    ensures FindParticipant(s.participants, scope, q.participantId).Some?
    ensures var p := InboxFor(s, scope, q).page;
      && (p.hasMore ==> |p.messages| == q.limit && p.nextSequence == p.messages[q.limit - 1].sequence)
      && (p.hasMore <==> exists m | Belongs(s, scope, m) :: Eligible(s, scope, q, m) && m.sequence > p.nextSequence)
  {
    hide Eligible, BoardOk, ReceiptsFor, Sort, Select, Increasing, HighWater, MessagesIn, FindParticipant;
    var ms := MessagesIn(s.messages, scope);
    ScopeIsIncreasing(s, scope);
    HighWaterIs(s, scope);
    Selected(s, scope, q, ms);
    var eligible := Select(s, scope, q, ms);
    AlreadySorted(eligible);
    NoneBeyond(s, scope);
    var p := InboxFor(s, scope, q).page;
    if p.hasMore {
      NextIsBeyond(eligible, q.limit);
      assert eligible[q.limit] in eligible;
    }
  }

  lemma NextIsBeyond(ms: seq<Message>, n: nat)
    requires Increasing(ms) && 1 <= n < |ms|
    ensures ms[n].sequence > ms[n - 1].sequence
  {
  }

  /** Every query is told exactly what it is to be told. */
  lemma InboxExactly(s: State, scope: string, q: Query)
    requires BoardOk(s)
    ensures AnswerDeclared(s, scope, q, InboxFor(s, scope, q))
  {
    hide Eligible, BoardOk, ReceiptsFor, Sort, Select, Increasing, HighWater, MessagesIn, FindParticipant;
    var found := FindParticipant(s.participants, scope, q.participantId);
    forall p ensures Registered(s, scope, q.participantId, p) <==> found == Some(p) {
      FoundIsRegistered(s, scope, q.participantId, p);
    }
    HighWaterIs(s, scope);
    if InboxFor(s, scope, q).Served? {
      PageIsExact(s, scope, q);
      MoreExactly(s, scope, q);
      forall m ensures Eligible(s, scope, q, m) <==> ToBeSeen(s, scope, q, m) { EligibleExactly(s, scope, q, m); }
      ReceiptsExactly(s.acknowledgements, scope, found.value.id, InboxFor(s, scope, q).page.messages);
      assert Registered(s, scope, q.participantId, found.value);
    }
  }
}
