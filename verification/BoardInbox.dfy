/**
 Inbox pages (src/coordination/inbox.ts): a cursor over one participant's messages, on a board that grows meanwhile.
 */
module BoardInbox {
  import opened Basics
  import opened Board
  import opened BoardHistory
  import opened Ordering

  datatype Query = Query(
    participantId: string, afterSequence: int, limit: int, includeAcknowledged: bool, includeBroadcasts: bool,
    kind: Option<string>)

  datatype Page = Page(
    nextSequence: int, highWaterSequence: int, hasMore: bool, messages: seq<Message>,
    acknowledgements: seq<Acknowledgement>)

  datatype Answer = Served(page: Page) | InvalidQuery | NobodyRegistered | CursorAhead

  predicate QueryOk(q: Query) {
    q.afterSequence >= 0 && 1 <= q.limit <= 100 && (q.kind.Some? ==> q.kind.value in KINDS)
  }

  /** Whether a participant is to see a message, wherever the cursor stands. */
  predicate Eligible(s: State, scope: string, q: Query, m: Message)
    requires FindParticipant(s.participants, scope, q.participantId).Some?
  {
    var actor := FindParticipant(s.participants, scope, q.participantId).value;
    var d := m.draft;
    && d.authorId != actor.id
    && (d.recipientId == Some(actor.id) || (d.recipientId == None && q.includeBroadcasts))
    && (d.context.Some? ==> d.context.value.domain in actor.domains)
    && (q.includeAcknowledged || !Acknowledged(s.acknowledgements, scope, m.id, actor.id))
    && (q.kind.Some? ==> d.kind == q.kind.value)
  }

  function Select(s: State, scope: string, q: Query, ms: seq<Message>): seq<Message>
    requires FindParticipant(s.participants, scope, q.participantId).Some?
  {
    if ms == [] then []
    else (if ms[0].sequence > q.afterSequence && Eligible(s, scope, q, ms[0]) then [ms[0]] else [])
         + Select(s, scope, q, ms[1..])
  }

  function BySequence(a: Message, b: Message): int { a.sequence - b.sequence }

  function ReceiptsFor(acks: seq<Acknowledgement>, scope: string, participantId: string,
      ms: seq<Message>): seq<Acknowledgement> {
    if acks == [] then []
    else
      var a := acks[0];
      (if a.scope == scope && a.participantId == participantId
        && exists m | m in ms :: m.id == a.messageId then [a] else [])
      + ReceiptsFor(acks[1..], scope, participantId, ms)
  }

  function InboxFor(s: State, scope: string, q: Query): Answer {
    if !QueryOk(q) then InvalidQuery
    else
      var actor := FindParticipant(s.participants, scope, q.participantId);
      if actor.None? then NobodyRegistered
      else
        var scoped := MessagesIn(s.messages, scope);
        var high := HighWater(scoped);
        if q.afterSequence > high then CursorAhead
        else
          var eligible := Sort(BySequence, Select(s, scope, q, scoped));
          var hasMore := |eligible| > q.limit;
          var messages := if hasMore then eligible[..q.limit] else eligible;
          Served(Page(if hasMore then messages[q.limit - 1].sequence else high, high, hasMore, messages,
                      ReceiptsFor(s.acknowledgements, scope, actor.value.id, messages)))
  }

  ghost predicate Increasing(ms: seq<Message>) { forall i, j :: 0 <= i < j < |ms| ==> ms[i].sequence < ms[j].sequence }

  predicate Belongs(s: State, scope: string, m: Message) { m in s.messages && m.scope == scope }

  /* ---- One page ---- */

  lemma ScopeIsIncreasing(s: State, scope: string)
    requires BoardOk(s)
    ensures Increasing(MessagesIn(s.messages, scope))
    ensures forall m :: m in MessagesIn(s.messages, scope) <==> Belongs(s, scope, m)
  {
    hide HistoryOk, ParticipantsOk, AcknowledgementsOk;
    var ms := MessagesIn(s.messages, scope);
    forall i, j | 0 <= i < j < |ms| ensures ms[i].sequence < ms[j].sequence {
      NumberedInOrder(s.participants, s.messages, scope, i);
      NumberedInOrder(s.participants, s.messages, scope, j);
    }
    forall m ensures m in ms <==> Belongs(s, scope, m) {
      if m in ms {
        var k :| 0 <= k < |ms| && ms[k] == m;
        NumberedInOrder(s.participants, s.messages, scope, k);
      }
      if Belongs(s, scope, m) { var k := IndexInScope(s.participants, s.messages, m); }
    }
  }

  lemma {:induction false} Selected(s: State, scope: string, q: Query, ms: seq<Message>)
    requires FindParticipant(s.participants, scope, q.participantId).Some? && Increasing(ms)
    ensures var r := Select(s, scope, q, ms);
      && Increasing(r)
      && forall m :: m in r <==> m in ms && m.sequence > q.afterSequence && Eligible(s, scope, q, m)
  {
    hide Eligible;
    if ms != [] {
      assert ms == [ms[0]] + ms[1..];
      forall i, j | 0 <= i < j < |ms[1..]| ensures ms[1..][i].sequence < ms[1..][j].sequence {
        assert ms[1..][i] == ms[i + 1] && ms[1..][j] == ms[j + 1];
      }
      Selected(s, scope, q, ms[1..]);
      forall m | m in ms[1..] ensures m.sequence > ms[0].sequence {
        var k :| 0 <= k < |ms[1..]| && ms[1..][k] == m;
        assert ms[k + 1] == m;
      }
    }
  }

  /**
   A page lists, in increasing order, exactly the eligible messages after the cursor and up to the next cursor;
   when there is more it is full and moves the cursor on, and when there is no more it reaches the end of the board.
   */
  lemma PageIsExact(s: State, scope: string, q: Query)
    requires BoardOk(s) && InboxFor(s, scope, q).Served?
    ensures FindParticipant(s.participants, scope, q.participantId).Some?
    ensures var p := InboxFor(s, scope, q).page;
      && Increasing(p.messages)
      && (forall m :: m in p.messages <==>
            Belongs(s, scope, m) && Eligible(s, scope, q, m) && q.afterSequence < m.sequence <= p.nextSequence)
      && p.highWaterSequence == |MessagesIn(s.messages, scope)|
      && q.afterSequence <= p.nextSequence <= p.highWaterSequence
      && (if p.hasMore then |p.messages| == q.limit && p.nextSequence > q.afterSequence
          else |p.messages| <= q.limit && p.nextSequence == p.highWaterSequence)
  {
    hide Eligible, BoardOk, ReceiptsFor, Sort, Select, Increasing, HighWater, MessagesIn, FindParticipant;
    var ms := MessagesIn(s.messages, scope);
    ScopeIsIncreasing(s, scope);
    HighWaterIs(s, scope);
    Selected(s, scope, q, ms);
    var eligible := Select(s, scope, q, ms);
    AlreadySorted(eligible);
    NoneBeyond(s, scope);
    var p := InboxFor(s, scope, q).page;
    if p.hasMore {
      FirstOf(eligible, q.limit);
      assert eligible[q.limit - 1] in eligible;
    }
  }

  lemma HighWaterIs(s: State, scope: string)
    requires BoardOk(s)
    ensures HighWater(MessagesIn(s.messages, scope)) == |MessagesIn(s.messages, scope)|
  {
    HighWaterIsCount(s.participants, s.messages, scope);
  }

  lemma AlreadySorted(ms: seq<Message>)
    requires Increasing(ms)
    ensures Sort(BySequence, ms) == ms
  {
    SortedStays(BySequence, ms);
  }

  lemma FirstOf(ms: seq<Message>, n: nat)
    requires Increasing(ms) && 1 <= n <= |ms|
    ensures Increasing(ms[..n])
    ensures forall m :: m in ms[..n] <==> m in ms && m.sequence <= ms[n - 1].sequence
  {
    var first := ms[..n];
    forall m ensures m in first <==> m in ms && m.sequence <= ms[n - 1].sequence {
      if m in ms && m.sequence <= ms[n - 1].sequence {
        var k :| 0 <= k < |ms| && ms[k] == m;
        assert k < n;
        assert first[k] == m;
      }
      if m in first {
        var k :| 0 <= k < |first| && first[k] == m;
        assert ms[k] == m;
      }
    }
  }

  lemma NoneBeyond(s: State, scope: string)
    requires BoardOk(s)
    ensures forall m | Belongs(s, scope, m) :: 1 <= m.sequence <= |MessagesIn(s.messages, scope)|
  {
    hide HistoryOk, ParticipantsOk, AcknowledgementsOk;
    forall m | Belongs(s, scope, m) ensures 1 <= m.sequence <= |MessagesIn(s.messages, scope)| {
      var k := IndexInScope(s.participants, s.messages, m);
      NumberedInOrder(s.participants, s.messages, scope, k);
    }
  }

  /* ---- A board that grows between pages ---- */

  lemma {:induction false} ScopeGrows(a: seq<Message>, b: seq<Message>, scope: string)
    requires a <= b
    ensures MessagesIn(a, scope) <= MessagesIn(b, scope)
    decreases |b|
  {
    if |a| < |b| {
      ScopeGrows(a, b[..|b| - 1], scope);
    } else {
      assert a == b;
    }
  }

  /** Nothing at or below a returned cursor becomes newly eligible later. */
  lemma NothingBecomesEligible(s: State, t: State, scope: string, q: Query, m: Message)
    requires BoardOk(s) && BoardOk(t) && Extends(s, t) && FindParticipant(s.participants, scope, q.participantId).Some?
    requires Belongs(t, scope, m) && m.sequence <= |MessagesIn(s.messages, scope)|
    ensures FindParticipant(t.participants, scope, q.participantId).Some?
    ensures Belongs(s, scope, m)
    ensures Eligible(t, scope, q, m) ==> Eligible(s, scope, q, m)
  {
    hide HistoryOk, ParticipantsOk, AcknowledgementsOk;
    ParticipantStays(s.participants, t.participants, scope, q.participantId);
    ScopeGrows(s.messages, t.messages, scope);
    var k := IndexInScope(t.participants, t.messages, m);
    NumberedInOrder(t.participants, t.messages, scope, k);
    NumberedInOrder(s.participants, s.messages, scope, k);
    var actor := FindParticipant(s.participants, scope, q.participantId).value;
    if Acknowledged(s.acknowledgements, scope, m.id, actor.id) {
      AcknowledgedStays(s.acknowledgements, t.acknowledgements, scope, m.id, actor.id);
    }
  }

  function Cursor(pages: seq<Page>, i: nat): int
    requires i <= |pages|
  {
    if i == 0 then 0 else pages[i - 1].nextSequence
  }

  function Returned(pages: seq<Page>): seq<Message> {
    if pages == [] then [] else Returned(pages[..|pages| - 1]) + pages[|pages| - 1].messages
  }

  /** Pages read one after another, each from the cursor the last one gave, on boards that only grow. */
  ghost predicate IsWalk(boards: seq<State>, scope: string, q: Query, pages: seq<Page>) {
    && |boards| == |pages|
    && (forall i | 0 <= i < |boards| :: BoardOk(boards[i]))
    && (forall i, j | 0 <= i <= j < |boards| :: Extends(boards[i], boards[j]))
    && (forall i | 0 <= i < |pages| :: ReadFrom(boards[i], scope, q, Cursor(pages, i), pages[i]))
  }

  predicate ReadFrom(s: State, scope: string, q: Query, after: int, p: Page) {
    InboxFor(s, scope, q.(afterSequence := after)) == Served(p)
  }

  lemma WalkPrefix(boards: seq<State>, scope: string, q: Query, pages: seq<Page>, n: nat)
    requires IsWalk(boards, scope, q, pages) && n <= |pages|
    ensures IsWalk(boards[..n], scope, q, pages[..n])
  {
    hide BoardOk, Extends, ReadFrom;
    forall i | 0 <= i < n ensures ReadFrom(boards[..n][i], scope, q, Cursor(pages[..n], i), pages[..n][i]) {
      assert ReadFrom(boards[i], scope, q, Cursor(pages, i), pages[i]);
    }
  }

  lemma EligibleIgnoresCursor(s: State, scope: string, q: Query, after: int, m: Message)
    requires FindParticipant(s.participants, scope, q.participantId).Some?
    ensures Eligible(s, scope, q.(afterSequence := after), m) == Eligible(s, scope, q, m)
  {
  }

  /**
   What has been returned so far is increasing, within the cursor, and lacks nothing that is still eligible on a
   later board.
   */
  ghost predicate SoFar(scope: string, q: Query, pages: seq<Page>, later: State) {
    && FindParticipant(later.participants, scope, q.participantId).Some?
    && Increasing(Returned(pages))
    && (forall m | m in Returned(pages) :: m.sequence <= Cursor(pages, |pages|))
    && (forall m | Belongs(later, scope, m) && Eligible(later, scope, q, m) && m.sequence <= Cursor(pages, |pages|) ::
          m in Returned(pages))
  }

  lemma {:induction false} WalkSoFar(boards: seq<State>, scope: string, q: Query, pages: seq<Page>, later: State)
    requires IsWalk(boards, scope, q, pages) && pages != [] && BoardOk(later)
    requires forall i | 0 <= i < |boards| :: Extends(boards[i], later)
    ensures SoFar(scope, q, pages, later)
  {
    hide ReadFrom, BoardOk, Extends, SoFar;
    var n := |pages| - 1;
    assert ReadFrom(boards[n], scope, q, Cursor(pages, n), pages[n]) && Extends(boards[n], later) && BoardOk(boards[n]);
    if n > 0 {
      WalkPrefix(boards, scope, q, pages, n);
      assert |boards| == |pages| && forall i | 0 <= i < n :: Extends(boards[..n][i], later);
      hide IsWalk;
      WalkSoFar(boards[..n], scope, q, pages[..n], later);
    } else {
      ActorRead(boards[0], later, scope, q, Cursor(pages, 0), pages[0]);
      NothingYet(scope, q, pages, later);
    }
    PageAdds(boards, scope, q, pages, later);
  }

  lemma ActorRead(s: State, later: State, scope: string, q: Query, after: int, p: Page)
    requires BoardOk(s) && Extends(s, later) && ReadFrom(s, scope, q, after, p)
    ensures FindParticipant(later.participants, scope, q.participantId).Some?
  {
    hide BoardOk, Extends;
    ActorStays(s, later, scope, q);
  }

  lemma NothingYet(scope: string, q: Query, pages: seq<Page>, later: State)
    requires BoardOk(later) && FindParticipant(later.participants, scope, q.participantId).Some?
    ensures SoFar(scope, q, pages[..0], later)
  {
    hide Eligible, BoardOk;
    NoMessageIsZero(later, scope);
  }

  /** One more page: what it lists goes on from what was returned. */
  lemma PageAdds(boards: seq<State>, scope: string, q: Query, pages: seq<Page>, later: State)
    requires pages != [] && |boards| == |pages| && BoardOk(later)
    requires var n := |pages| - 1;
      && BoardOk(boards[n]) && Extends(boards[n], later)
      && ReadFrom(boards[n], scope, q, Cursor(pages, n), pages[n])
      && SoFar(scope, q, pages[..n], later)
    ensures SoFar(scope, q, pages, later)
  {
    hide Eligible, InboxFor, BoardOk, Extends, Increasing;
    var n := |pages| - 1;
    var s, p, after := boards[n], pages[n], Cursor(pages, n);
    assert Cursor(pages[..n], n) == after;
    PageIsExact(s, scope, q.(afterSequence := after));
    var sofar := Returned(pages[..n]);
    assert Returned(pages) == sofar + p.messages;
    forall m | Belongs(later, scope, m) && Eligible(later, scope, q, m) && m.sequence <= p.nextSequence
      ensures m in Returned(pages)
    {
      if m.sequence > after {
        NothingBecomesEligible(s, later, scope, q, m);
        EligibleIgnoresCursor(s, scope, q, after, m);
        assert m in p.messages;
      } else {
        assert m in sofar;
      }
    }
    IncreasingOn(sofar, p.messages, after);
  }

  lemma ActorStays(s: State, t: State, scope: string, q: Query)
    requires Extends(s, t) && FindParticipant(s.participants, scope, q.participantId).Some?
    ensures FindParticipant(t.participants, scope, q.participantId).Some?
  {
    ParticipantStays(s.participants, t.participants, scope, q.participantId);
  }

  lemma NoMessageIsZero(s: State, scope: string)
    requires BoardOk(s)
    ensures forall m | Belongs(s, scope, m) :: m.sequence >= 1
  {
    hide BoardOk;
    NoneBeyond(s, scope);
  }

  lemma IncreasingOn(a: seq<Message>, b: seq<Message>, after: int)
    requires Increasing(a) && Increasing(b)
    requires (forall m | m in a :: m.sequence <= after) && forall m | m in b :: after < m.sequence
    ensures Increasing(a + b)
  {
    var r := a + b;
    forall i, j | 0 <= i < j < |r| ensures r[i].sequence < r[j].sequence {
      if i < |a| <= j {
        assert r[i] in a && r[j] in b;
      }
    }
  }

  /**
   Following the cursor from zero until there is no more returns, each exactly once and in increasing order,
   every message that is eligible on the last board read: nothing not acknowledged meanwhile is missed.
   */
  lemma WalkReturnsEachOnce(boards: seq<State>, scope: string, q: Query, pages: seq<Page>)
    requires IsWalk(boards, scope, q, pages) && pages != [] && !pages[|pages| - 1].hasMore
    ensures Increasing(Returned(pages))
    ensures var last := boards[|boards| - 1];
      FindParticipant(last.participants, scope, q.participantId).Some?
      && forall m | Belongs(last, scope, m) && Eligible(last, scope, q, m) :: m in Returned(pages)
  {
    hide Eligible, ReadFrom, BoardOk, Extends, Returned, Increasing, Belongs;
    var n := |pages| - 1;
    var last := boards[n];
    assert ReadFrom(last, scope, q, Cursor(pages, n), pages[n]) && BoardOk(last);
    assert forall i | 0 <= i < |boards| :: Extends(boards[i], last);
    WalkSoFar(boards, scope, q, pages, last);
    hide IsWalk;
    LastPageReachesTheEnd(last, scope, q, Cursor(pages, n), pages[n]);
  }

  lemma LastPageReachesTheEnd(s: State, scope: string, q: Query, after: int, p: Page)
    requires BoardOk(s) && ReadFrom(s, scope, q, after, p) && !p.hasMore
    ensures forall m | Belongs(s, scope, m) :: m.sequence <= p.nextSequence
  {
    hide BoardOk, InboxFor, Eligible;
    PageIsExact(s, scope, q.(afterSequence := after));
    NoneBeyond(s, scope);
  }
}
