/**
 What the coordination board admits (src/coordination/ledger.ts), said of the board rather than of the order in which
 it is asked: a command is accepted exactly when every rule is met, and a refusal names a rule that was broken.
 */
module BoardRules {
  import opened Basics
  import opened Decimals
  import opened Board
  import opened BoardHistory

  /* ---- Fields ---- */

  /** What is left between the blanks at either end. */
  ghost predicate Trimmed(s: string, t: string) {
    && (exists i, j | 0 <= i <= j <= |s| ::
          t == s[i..j] && (forall k | 0 <= k < i :: Space(s[k])) && (forall k | j <= k < |s| :: Space(s[k])))
    && (t != [] ==> !Space(t[0]) && !Space(t[|t| - 1]))
  }

  lemma {:induction false} TrimStartDrops(s: string) returns (i: nat)
    ensures i <= |s| && TrimStart(s) == s[i..] && forall k | 0 <= k < i :: Space(s[k])
    ensures TrimStart(s) != [] ==> !Space(TrimStart(s)[0])
  {
    hide Space;
    i := 0;
    if s != [] && Space(s[0]) {
      var rest := TrimStartDrops(s[1..]);
      i := rest + 1;
      forall k | 0 <= k < i ensures Space(s[k]) { if k > 0 { assert s[k] == s[1..][k - 1]; } }
    }
  }

  lemma {:induction false} TrimEndDrops(s: string) returns (j: nat)
    ensures j <= |s| && TrimEnd(s) == s[..j] && forall k | j <= k < |s| :: Space(s[k])
    ensures TrimEnd(s) != [] ==> !Space(TrimEnd(s)[|TrimEnd(s)| - 1])
  {
    hide Space;
    j := |s|;
    if s != [] && Space(s[|s| - 1]) {
      j := TrimEndDrops(s[..|s| - 1]);
      forall k | j <= k < |s| ensures Space(s[k]) { if k < |s| - 1 { assert s[k] == s[..|s| - 1][k]; } }
    }
  }

  /** Trimming takes the blanks at either end and nothing else. */
  lemma TrimIsBetweenBlanks(s: string)
    ensures Trimmed(s, Trim(s)) && (Trim(s) == [] <==> forall k | 0 <= k < |s| :: Space(s[k]))
  {
    hide Space;
    var i := TrimStartDrops(s);
    var r := s[i..];
    var j := TrimEndDrops(r);
    forall k | i + j <= k < |s| ensures Space(s[k]) { assert s[k] == r[k - i]; }
    assert Trim(s) == s[i..i + j];
    if j > 0 { assert r[..j][0] == r[0] == s[i]; }
  }

  /** A text is read when it fits and is not blank, and is read without the blanks around it. */
  ghost predicate Reads(s: string, max: nat, t: string) { |s| <= max && t != [] && t == Trim(s) }

  /** The characters at the ends of what is blank and what may stand in a name, and some of those beyond. */
  lemma CharactersAreClassed(c: char)
    ensures c as int in {0x09, 0x0D, 0x20, 0xA0, 0x1680, 0x2000, 0x200A, 0x2028, 0x2029, 0x202F, 0x205F, 0x3000, 0xFEFF}
      ==> Space(c)
    ensures c as int in {0x08, 0x0E, 0x1F, 0x21, 0x85, 0x180E, 0x1FFF, 0x200B, 0x2027, 0x202A, 0x2060} ==> !Space(c)
    ensures c in "AZaz09._:/-" ==> StableChar(c)
    ensures c in "@[`{;, \\" ==> !StableChar(c)
    ensures StableId([c]) <==> StableChar(c) && c !in "._:/-"
  {
    assert [c][0] == c && forall d | d in [c] :: d == c;
  }

  /** A name is a text of at most 180 characters that begins with a letter or a digit and holds no odd character. */
  ghost predicate Names(s: string, t: string) {
    Reads(s, 180, t) && StableId([t[0]]) && forall c | c in t :: StableChar(c)
  }

  ghost predicate Lists(values: seq<string>, read: seq<string>) {
    && |read| == |values| <= 32
    && (forall i | 0 <= i < |values| :: Reads(values[i], 180, read[i]))
    && forall i, j | 0 <= i < j < |read| :: read[i] != read[j]
  }

  lemma IdentifierExactly(s: string, t: string)
    ensures Identifier(s) == Ok(t) <==> Names(s, t)
  {
    hide Space, TrimStart, TrimEnd, StableChar;
    if t != [] { CharactersAreClassed(t[0]); }
  }

  lemma {:induction false} EachTextExactly(values: seq<string>, read: seq<string>)
    ensures EachText(values) == Ok(read) <==>
      |read| == |values| && forall i | 0 <= i < |values| :: Reads(values[i], 180, read[i])
  {
    hide Trim;
    if values == [] {
    } else {
      if read != [] {
        EachTextExactly(values[1..], read[1..]);
        assert read == [read[0]] + read[1..];
        assert (forall i | 0 <= i < |values| :: |read| == |values| && Reads(values[i], 180, read[i])) ==>
          forall i | 0 <= i < |values| - 1 :: Reads(values[1..][i], 180, read[1..][i]);
      }
      if EachText(values).Ok? {
        EachTextExactly(values[1..], EachText(values[1..]).value);
      }
    }
  }

  lemma TextsExactly(values: seq<string>, read: seq<string>)
    ensures Texts(values) == Ok(read) <==> Lists(values, read)
  {
    hide Trim, EachText, Reads;
    EachTextExactly(values, read);
    if EachText(values).Ok? { EachTextExactly(values, EachText(values).value); }
  }

  /** A participant as registered: the fields as read, and the lists within what is known. */
  ghost predicate Describes(p: Participant, scope: string, q: Participant) {
    && p.scope == q.scope == scope && Names(p.id, q.id)
    && Reads(p.name, 180, q.name) && Reads(p.version, 40, q.version) && Reads(p.purpose, 1200, q.purpose)
    && Reads(p.reference, 500, q.reference)
    && p.kind == q.kind && q.kind in ["AGENT", "APPARATUS"] && p.status == q.status == "LOCAL"
    && p.authority == q.authority
    && q.authority in ["canonical", "evidence", "coordination", "derived", "projection", "verification"]
    && p.runtime == q.runtime && q.runtime in ["Rust", "C++", "Python", "JavaScript", "Unassigned"]
    && Lists(p.domains, q.domains) && q.domains != []
    && (forall d | d in q.domains :: d in ["CARAVAN", "TRADEWIND", "LANDSHARK"])
    && Lists(p.inputs, q.inputs) && Lists(p.outputs, q.outputs) && Lists(p.capabilities, q.capabilities)
  }

  ghost predicate MaybeNames(s: Option<string>, t: Option<string>) {
    (s == None <==> t == None) && (s.Some? && t.Some? ==> Names(s.value, t.value))
  }

  /** A draft as read: each field within its length, and a release context that is on offer or none. */
  ghost predicate Drafts(m: Draft, allowed: seq<Context>, d: Draft) {
    && Names(m.requestId, d.requestId) && Names(m.authorId, d.authorId)
    && MaybeNames(m.recipientId, d.recipientId) && MaybeNames(m.replyTo, d.replyTo)
    && m.kind == d.kind && d.kind in ["NOTE", "REQUEST", "HANDOFF", "BLOCKER", "RESULT"]
    && Reads(m.topic, 80, d.topic) && Reads(m.title, 180, d.title) && Reads(m.body, 4000, d.body)
    && m.context == d.context && (d.context.Some? ==> d.context.value in allowed)
  }

  lemma TextExactly(s: string, max: nat, t: string)
    ensures Text(s, max) == Ok(t) <==> Reads(s, max, t)
  {
  }

  lemma OptionalExactly(s: Option<string>, t: Option<string>)
    ensures OptionalIdentifier(s) == Ok(t) <==> MaybeNames(s, t)
  {
    hide Identifier, Names;
    if s.Some? && t.Some? { IdentifierExactly(s.value, t.value); }
  }

  lemma DraftExactly(m: Draft, allowed: seq<Context>, d: Draft)
    ensures ParseDraft(m, allowed) == Ok(d) <==> Drafts(m, allowed, d)
  {
    hide Identifier, OptionalIdentifier, Text, Names, MaybeNames, Reads;
    IdentifierExactly(m.requestId, d.requestId);
    IdentifierExactly(m.authorId, d.authorId);
    OptionalExactly(m.recipientId, d.recipientId);
    OptionalExactly(m.replyTo, d.replyTo);
    TextExactly(m.topic, 80, d.topic);
    TextExactly(m.title, 180, d.title);
    TextExactly(m.body, 4000, d.body);
  }

  lemma ParticipantExactly(p: Participant, scope: string, q: Participant)
    ensures ParseParticipant(p, scope) == Ok(q) <==> Describes(p, scope, q)
  {
    hide Identifier, Text, Texts, Names, Lists, Reads;
    IdentifierExactly(p.id, q.id);
    TextExactly(p.name, 180, q.name);
    TextExactly(p.version, 40, q.version);
    TextExactly(p.purpose, 1200, q.purpose);
    TextExactly(p.reference, 500, q.reference);
    TextsExactly(p.domains, q.domains);
    TextsExactly(p.inputs, q.inputs);
    TextsExactly(p.outputs, q.outputs);
    TextsExactly(p.capabilities, q.capabilities);
  }

  /* ---- Who and what is there ---- */

  ghost predicate Registered(s: State, scope: string, id: string, p: Participant) {
    p in s.participants && p.scope == scope && p.id == id
  }

  ghost predicate Posted(s: State, scope: string, id: string, m: Message) {
    m in s.messages && m.scope == scope && m.id == id
  }

  lemma {:induction false} ParticipantFound(ps: seq<Participant>, scope: string, id: string, p: Participant)
    requires ParticipantsOk(ps)
    ensures FindParticipant(ps, scope, id) == Some(p) <==> p in ps && p.scope == scope && p.id == id
  {
    if ps != [] {
      var before, last := ps[..|ps| - 1], ps[|ps| - 1];
      assert ps == before + [last];
      ParticipantFound(before, scope, id, p);
      if FindParticipant(before, scope, id).Some? {
        ParticipantFound(before, scope, id, FindParticipant(before, scope, id).value);
        ParticipantStays(before, ps, scope, id);
      } else if last.scope == scope && last.id == id {
        NewParticipantFound(before, last);
      } else {
        NotTheLast(before, last, scope, id);
      }
    }
  }

  lemma {:induction false} NotTheLast(ps: seq<Participant>, q: Participant, scope: string, id: string)
    requires FindParticipant(ps, scope, id).None? && !(q.scope == scope && q.id == id)
    ensures FindParticipant(ps + [q], scope, id).None?
  {
    if ps == [] {
      assert ps + [q] == [q];
    } else {
      assert (ps + [q])[1..] == ps[1..] + [q];
      NotTheLast(ps[1..], q, scope, id);
    }
  }

  lemma {:induction false} FindsAny(ms: seq<Message>, m: Message)
    requires m in ms
    ensures FindMessage(ms, m.scope, m.id).Some?
    ensures FindRequest(ms, m.scope, m.draft.authorId, m.draft.requestId).Some?
  {
    if ms[0] != m {
      assert m in ms[1..];
      FindsAny(ms[1..], m);
    }
  }

  lemma MessageFound(ps: seq<Participant>, ms: seq<Message>, scope: string, id: string, m: Message)
    requires HistoryOk(ps, ms)
    ensures FindMessage(ms, scope, id) == Some(m) <==> m in ms && m.scope == scope && m.id == id
  {
    hide HistoryOk, MessageId;
    if FindMessage(ms, scope, id).Some? { FoundIsThere(ms, scope, id); }
    if m in ms && m.scope == scope && m.id == id {
      FindsAny(ms, m);
      OneMessagePerId(ps, ms, m, FindMessage(ms, scope, id).value);
    }
  }

  lemma OneMessagePerId(ps: seq<Participant>, ms: seq<Message>, m: Message, n: Message)
    requires HistoryOk(ps, ms) && m in ms && n in ms && m.scope == n.scope && m.id == n.id
    ensures m == n
  {
    hide HistoryOk;
    var j := IndexInScope(ps, ms, m);
    var k := IndexInScope(ps, ms, n);
    NumberedInOrder(ps, ms, m.scope, j);
    NumberedInOrder(ps, ms, m.scope, k);
    var a, b := "MSG-" + Padded(j + 1, 5), "MSG-" + Padded(k + 1, 5);
    assert a[4..] == Padded(j + 1, 5) && b[4..] == Padded(k + 1, 5);
    PaddedIsInjective(j + 1, k + 1, 5);
  }

  lemma {:induction false} RequestIsThere(ms: seq<Message>, scope: string, authorId: string, requestId: string)
    requires FindRequest(ms, scope, authorId, requestId).Some?
    ensures var m := FindRequest(ms, scope, authorId, requestId).value;
      m in ms && m.scope == scope && m.draft.authorId == authorId && m.draft.requestId == requestId
  {
    if !(ms[0].scope == scope && ms[0].draft.authorId == authorId && ms[0].draft.requestId == requestId) {
      RequestIsThere(ms[1..], scope, authorId, requestId);
      assert forall m | m in ms[1..] :: m in ms;
    }
  }

  lemma RequestFound(ps: seq<Participant>, ms: seq<Message>, scope: string, author: string, request: string, m: Message)
    requires HistoryOk(ps, ms)
    ensures FindRequest(ms, scope, author, request) == Some(m) <==>
      m in ms && m.scope == scope && m.draft.authorId == author && m.draft.requestId == request
  {
    hide HistoryOk;
    if FindRequest(ms, scope, author, request).Some? { RequestIsThere(ms, scope, author, request); }
    if m in ms && m.scope == scope && m.draft.authorId == author && m.draft.requestId == request {
      FindsAny(ms, m);
      OneMessagePerRequest(ps, ms, m, FindRequest(ms, scope, author, request).value);
    }
  }

  /* ---- What may be sent ---- */

  /**
   The author is registered, and the recipient if one is named; a handoff goes to somebody else; both declare the
   domain of its release; and a reply keeps its parent's release and topic.
   */
  ghost predicate MaySend(s: State, scope: string, d: Draft) {
    && (exists author ::
          Registered(s, scope, d.authorId, author) && (d.context.Some? ==> d.context.value.domain in author.domains))
    && (d.recipientId.Some? ==> exists recipient ::
          Registered(s, scope, d.recipientId.value, recipient)
          && (d.context.Some? ==> d.context.value.domain in recipient.domains))
    && (d.kind == "HANDOFF" ==> d.recipientId.Some? && d.recipientId.value != d.authorId)
    && (d.replyTo.Some? ==> exists parent ::
          Posted(s, scope, d.replyTo.value, parent)
          && parent.draft.context == d.context && parent.draft.topic == d.topic)
  }

  lemma CheckedExactly(s: State, scope: string, d: Draft)
    requires BoardOk(s)
    ensures Checked(s, scope, d).Ok? <==> MaySend(s, scope, d)
  {
    hide ParticipantsOk, HistoryOk, AcknowledgementsOk, FindParticipant, FindMessage;
    forall p, id ensures FindParticipant(s.participants, scope, id) == Some(p) <==> Registered(s, scope, id, p) {
      ParticipantFound(s.participants, scope, id, p);
    }
    forall m, id ensures FindMessage(s.messages, scope, id) == Some(m) <==> Posted(s, scope, id, m) {
      MessageFound(s.participants, s.messages, scope, id, m);
    }
  }

  /* ---- Commands ---- */

  /** The board after a draft: as it was if its author said just this under this request, or one message longer. */
  ghost predicate PostLeads(s: State, scope: string, d: Draft, at: string, t: State) {
    if exists m | m in s.messages ::
      m.scope == scope && m.draft.authorId == d.authorId && m.draft.requestId == d.requestId
    then t == s && exists m | m in s.messages :: m.scope == scope && m.draft == d
    else
      var n := |MessagesIn(s.messages, scope)| + 1;
      n <= 5000 && t == s.(messages := s.messages + [Message(d, "MSG-" + Padded(n, 5), n, scope, at)])
  }

  /** A post is accepted, and leads where it does, exactly when it reads, may be sent, and its request allows it. */
  lemma PostsExactly(s: State, scope: string, m: Draft, allowed: seq<Context>, at: string, t: State)
    requires BoardOk(s)
    ensures ApplyPost(s, scope, m, allowed, at) == Ok(t) <==>
      exists d :: Drafts(m, allowed, d) && MaySend(s, scope, d) && PostLeads(s, scope, d, at, t)
  {
    hide BoardOk, ParseDraft, Checked, Drafts, MaySend, FindRequest, HighWater, MessagesIn, Padded;
    if ParseDraft(m, allowed).Ok? {
      var d := ParseDraft(m, allowed).value;
      DraftExactly(m, allowed, d);
      CheckedExactly(s, scope, d);
      PostLeadsExactly(s, scope, d, at, t);
    }
    forall d | Drafts(m, allowed, d) ensures ParseDraft(m, allowed) == Ok(d) { DraftExactly(m, allowed, d); }
  }

  lemma PostLeadsExactly(s: State, scope: string, d: Draft, at: string, t: State)
    requires BoardOk(s)
    ensures PostLeads(s, scope, d, at, t) <==>
      var prior := FindRequest(s.messages, scope, d.authorId, d.requestId);
      if prior.Some? then prior.value.draft == d && t == s
      else
        var n := HighWater(MessagesIn(s.messages, scope)) + 1;
        |MessagesIn(s.messages, scope)| < MAX_MESSAGES
        && t == s.(messages := s.messages + [Message(d, MessageId(n), n, scope, at)])
  {
    hide ParticipantsOk, HistoryOk, AcknowledgementsOk, FindRequest, HighWater, MessagesIn, Padded;
    HighWaterIsCount(s.participants, s.messages, scope);
    forall m ensures FindRequest(s.messages, scope, d.authorId, d.requestId) == Some(m) <==>
      m in s.messages && m.scope == scope && m.draft.authorId == d.authorId && m.draft.requestId == d.requestId
    {
      RequestFound(s.participants, s.messages, scope, d.authorId, d.requestId, m);
    }
  }

  /** The board after a registration: as it was if it was registered just so, or one participant longer. */
  ghost predicate RegistrationLeads(s: State, scope: string, q: Participant, t: State) {
    if exists p :: Registered(s, scope, q.id, p) then t == s && q in s.participants
    else |ParticipantsIn(s.participants, scope)| < 200 && t == s.(participants := s.participants + [q])
  }

  lemma RegistersExactly(s: State, scope: string, p: Participant, t: State)
    requires BoardOk(s)
    ensures ApplyRegister(s, scope, p) == Ok(t) <==>
      exists q :: Describes(p, scope, q) && RegistrationLeads(s, scope, q, t)
  {
    hide ParticipantsOk, HistoryOk, AcknowledgementsOk, ParseParticipant, Describes, FindParticipant, ParticipantsIn;
    if ParseParticipant(p, scope).Ok? {
      var q := ParseParticipant(p, scope).value;
      ParticipantExactly(p, scope, q);
      ParsedScope(p, scope);
      forall r ensures FindParticipant(s.participants, scope, q.id) == Some(r) <==> Registered(s, scope, q.id, r) {
        ParticipantFound(s.participants, scope, q.id, r);
      }
      assert q.scope == scope && (Registered(s, scope, q.id, q) <==> q in s.participants);
      var found := FindParticipant(s.participants, scope, q.id);
      assert found.Some? ==> Registered(s, scope, q.id, found.value);
    }
    forall q | Describes(p, scope, q) ensures ParseParticipant(p, scope) == Ok(q) { ParticipantExactly(p, scope, q); }
  }

  /** Somebody other than the author, to whom the message went or to whom it was open, and who declares its domain. */
  ghost predicate MayAcknowledge(s: State, scope: string, id: string, actorId: string) {
    exists actor, m ::
      Registered(s, scope, actorId, actor) && Posted(s, scope, id, m)
      && m.draft.authorId != actorId && (m.draft.recipientId.Some? ==> m.draft.recipientId.value == actorId)
      && (m.draft.context.Some? ==> m.draft.context.value.domain in actor.domains)
  }

  ghost predicate AcknowledgementLeads(s: State, scope: string, id: string, actorId: string, at: string, t: State) {
    if exists a | a in s.acknowledgements :: a.scope == scope && a.messageId == id && a.participantId == actorId
    then t == s
    else t == s.(acknowledgements := s.acknowledgements + [Acknowledgement(id, actorId, scope, at)])
  }

  lemma AcknowledgesExactly(s: State, scope: string, messageId: string, participantId: string, at: string, t: State)
    requires BoardOk(s)
    ensures ApplyAcknowledge(s, scope, messageId, participantId, at) == Ok(t) <==>
      exists id, actorId :: Names(messageId, id) && Names(participantId, actorId)
        && MayAcknowledge(s, scope, id, actorId) && AcknowledgementLeads(s, scope, id, actorId, at, t)
  {
    hide ParticipantsOk, HistoryOk, AcknowledgementsOk, Identifier, Names, FindParticipant, FindMessage;
    forall id | Names(messageId, id) ensures Identifier(messageId) == Ok(id) { IdentifierExactly(messageId, id); }
    forall id | Names(participantId, id) ensures Identifier(participantId) == Ok(id) {
      IdentifierExactly(participantId, id);
    }
    if Identifier(messageId).Ok? && Identifier(participantId).Ok? {
      var id, actorId := Identifier(messageId).value, Identifier(participantId).value;
      IdentifierExactly(messageId, id);
      IdentifierExactly(participantId, actorId);
      forall p
        ensures FindParticipant(s.participants, scope, actorId) == Some(p) <==> Registered(s, scope, actorId, p) {
        ParticipantFound(s.participants, scope, actorId, p);
      }
      forall m ensures FindMessage(s.messages, scope, id) == Some(m) <==> Posted(s, scope, id, m) {
        MessageFound(s.participants, s.messages, scope, id, m);
      }
      MayExactly(s, scope, id, actorId);
    }
  }

  lemma MayExactly(s: State, scope: string, id: string, actorId: string)
    requires forall p ::
      FindParticipant(s.participants, scope, actorId) == Some(p) <==> Registered(s, scope, actorId, p)
    requires forall m :: FindMessage(s.messages, scope, id) == Some(m) <==> Posted(s, scope, id, m)
    ensures MayAcknowledge(s, scope, id, actorId) <==>
      var actor, found := FindParticipant(s.participants, scope, actorId), FindMessage(s.messages, scope, id);
      && actor.Some? && found.Some? && found.value.draft.authorId != actorId
      && (found.value.draft.recipientId.Some? ==> found.value.draft.recipientId.value == actorId)
      && (found.value.draft.context.Some? ==> found.value.draft.context.value.domain in actor.value.domains)
  {
    hide FindParticipant, FindMessage;
    if FindParticipant(s.participants, scope, actorId).Some? && FindMessage(s.messages, scope, id).Some? {
      assert Registered(s, scope, actorId, FindParticipant(s.participants, scope, actorId).value);
      assert Posted(s, scope, id, FindMessage(s.messages, scope, id).value);
    }
  }

  /* ---- Refusals ---- */

  ghost predicate RegistrationBroken(s: State, scope: string, p: Participant, why: Refusal) {
    match why
    case ScopeMismatch => p.scope != scope
    case InvalidField => p.scope == scope && forall q :: !Describes(p, scope, q)
    case RegistrationConflict =>
      exists q, r :: Describes(p, scope, q) && Registered(s, scope, q.id, r) && r != q
    case Capacity => |ParticipantsIn(s.participants, scope)| >= 200
    case _ => false
  }

  lemma RegistrationRefusalIsJust(s: State, scope: string, p: Participant)
    requires BoardOk(s) && ApplyRegister(s, scope, p).Refused?
    ensures RegistrationBroken(s, scope, p, ApplyRegister(s, scope, p).why)
  {
    hide BoardOk, ParseParticipant, Describes, FindParticipant, ParticipantsIn;
    ParseRefusals(p, scope);
    if ParseParticipant(p, scope).Ok? {
      var q := ParseParticipant(p, scope).value;
      ParticipantExactly(p, scope, q);
      var found := FindParticipant(s.participants, scope, q.id);
      if found.Some? {
        FoundIsRegistered(s, scope, q.id, found.value);
        assert Describes(p, scope, q) && Registered(s, scope, q.id, found.value);
      }
    } else {
      forall q ensures !Describes(p, scope, q) { ParticipantExactly(p, scope, q); }
    }
  }

  lemma FoundIsRegistered(s: State, scope: string, id: string, p: Participant)
    requires BoardOk(s)
    ensures FindParticipant(s.participants, scope, id) == Some(p) <==> Registered(s, scope, id, p)
  {
    ParticipantFound(s.participants, scope, id, p);
  }

  lemma ParseRefusals(p: Participant, scope: string)
    ensures ParseParticipant(p, scope).Refused? ==>
      ParseParticipant(p, scope).why == if p.scope != scope then ScopeMismatch else InvalidField
  {
    TextsRefusal(p.domains);
    TextsRefusal(p.inputs);
    TextsRefusal(p.outputs);
    TextsRefusal(p.capabilities);
    hide Texts, Trim;
  }

  lemma {:induction false} EachTextRefusal(values: seq<string>)
    ensures EachText(values).Refused? ==> EachText(values).why == InvalidField
  {
    hide Trim;
    if values != [] { EachTextRefusal(values[1..]); }
  }

  lemma TextsRefusal(values: seq<string>)
    ensures Texts(values).Refused? ==> Texts(values).why == InvalidField
  {
    hide EachText;
    EachTextRefusal(values);
  }

  ghost predicate Unregistered(s: State, scope: string, id: string) { forall p :: !Registered(s, scope, id, p) }

  ghost predicate Undeclared(s: State, scope: string, id: string, domain: string) {
    exists p :: Registered(s, scope, id, p) && domain !in p.domains
  }

  ghost predicate DraftBroken(s: State, scope: string, d: Draft, why: Refusal) {
    match why
    case UnknownParticipant =>
      Unregistered(s, scope, d.authorId) || (d.recipientId.Some? && Unregistered(s, scope, d.recipientId.value))
    case InvalidHandoff => d.kind == "HANDOFF" && (d.recipientId == None || d.recipientId == Some(d.authorId))
    case DomainMismatch =>
      d.context.Some?
      && (Undeclared(s, scope, d.authorId, d.context.value.domain)
          || (d.recipientId.Some? && Undeclared(s, scope, d.recipientId.value, d.context.value.domain)))
    case UnknownMessage => d.replyTo.Some? && forall m :: !Posted(s, scope, d.replyTo.value, m)
    case ThreadContextMismatch =>
      d.replyTo.Some? && exists m :: Posted(s, scope, d.replyTo.value, m) && m.draft.context != d.context
    case ThreadTopicMismatch =>
      d.replyTo.Some? && exists m :: Posted(s, scope, d.replyTo.value, m) && m.draft.topic != d.topic
    case IdempotencyConflict =>
      exists m | m in s.messages :: m.scope == scope && m.draft.authorId == d.authorId
                                    && m.draft.requestId == d.requestId && m.draft != d
    case Capacity => |MessagesIn(s.messages, scope)| >= 5000
    case _ => false
  }

  ghost predicate PostBroken(s: State, scope: string, m: Draft, allowed: seq<Context>, why: Refusal) {
    || (why == InvalidField && forall d :: !Drafts(m, allowed, d))
    || (why == InvalidContext && m.context.Some? && m.context.value !in allowed)
    || exists d :: Drafts(m, allowed, d) && DraftBroken(s, scope, d, why)
  }

  lemma PostRefusalIsJust(s: State, scope: string, m: Draft, allowed: seq<Context>, at: string)
    requires BoardOk(s) && ApplyPost(s, scope, m, allowed, at).Refused?
    ensures PostBroken(s, scope, m, allowed, ApplyPost(s, scope, m, allowed, at).why)
  {
    hide BoardOk, Drafts, Checked, DraftBroken, FindRequest, MessagesIn, HighWater, MessageId;
    DraftRefusals(m, allowed);
    forall d | Drafts(m, allowed, d) ensures ParseDraft(m, allowed) == Ok(d) { DraftExactly(m, allowed, d); }
    hide ParseDraft;
    if ParseDraft(m, allowed).Ok? {
      var d := ParseDraft(m, allowed).value;
      DraftExactly(m, allowed, d);
      if Checked(s, scope, d).Refused? {
        CheckRefusalIsJust(s, scope, d);
      } else {
        StoreRefusalIsJust(s, scope, d);
      }
    }
  }

  lemma DraftRefusals(m: Draft, allowed: seq<Context>)
    ensures ParseDraft(m, allowed).Refused? ==>
      var why := ParseDraft(m, allowed).why;
      why == InvalidField || (why == InvalidContext && m.context.Some? && m.context.value !in allowed)
  {
    hide Trim, StableId;
  }

  lemma CheckRefusalIsJust(s: State, scope: string, d: Draft)
    requires BoardOk(s) && Checked(s, scope, d).Refused?
    ensures DraftBroken(s, scope, d, Checked(s, scope, d).why)
  {
    hide ParticipantsOk, HistoryOk, AcknowledgementsOk, FindParticipant, FindMessage, MessagesIn;
    forall p, id ensures FindParticipant(s.participants, scope, id) == Some(p) <==> Registered(s, scope, id, p) {
      ParticipantFound(s.participants, scope, id, p);
    }
    forall m, id ensures FindMessage(s.messages, scope, id) == Some(m) <==> Posted(s, scope, id, m) {
      MessageFound(s.participants, s.messages, scope, id, m);
    }
  }

  lemma StoreRefusalIsJust(s: State, scope: string, d: Draft)
    requires BoardOk(s)
    ensures var prior := FindRequest(s.messages, scope, d.authorId, d.requestId);
      && (prior.Some? && prior.value.draft != d ==> DraftBroken(s, scope, d, IdempotencyConflict))
      && (|MessagesIn(s.messages, scope)| >= MAX_MESSAGES ==> DraftBroken(s, scope, d, Capacity))
  {
    hide ParticipantsOk, HistoryOk, AcknowledgementsOk, FindRequest, MessagesIn;
    var prior := FindRequest(s.messages, scope, d.authorId, d.requestId);
    if prior.Some? { RequestIsThere(s.messages, scope, d.authorId, d.requestId); }
  }

  ghost predicate AcknowledgementBroken(s: State, scope: string, id: string, actorId: string, why: Refusal) {
    match why
    case UnknownParticipant => Unregistered(s, scope, actorId)
    case UnknownMessage => forall m :: !Posted(s, scope, id, m)
    case InvalidAcknowledgement =>
      exists m :: Posted(s, scope, id, m)
        && (m.draft.authorId == actorId || (m.draft.recipientId.Some? && m.draft.recipientId != Some(actorId)))
    case DomainMismatch =>
      exists m :: Posted(s, scope, id, m)
        && m.draft.context.Some? && Undeclared(s, scope, actorId, m.draft.context.value.domain)
    case _ => false
  }

  lemma AcknowledgementRefusalIsJust(s: State, scope: string, messageId: string, participantId: string, at: string)
    requires BoardOk(s) && ApplyAcknowledge(s, scope, messageId, participantId, at).Refused?
    ensures var why := ApplyAcknowledge(s, scope, messageId, participantId, at).why;
      || (why == InvalidField && ((forall id :: !Names(messageId, id)) || forall id :: !Names(participantId, id)))
      || exists id, actorId :: Names(messageId, id) && Names(participantId, actorId)
           && AcknowledgementBroken(s, scope, id, actorId, why)
  {
    hide ParticipantsOk, HistoryOk, AcknowledgementsOk, Names, FindParticipant, FindMessage, Trim, StableId;
    forall id | Names(messageId, id) ensures Identifier(messageId) == Ok(id) { IdentifierExactly(messageId, id); }
    forall id | Names(participantId, id) ensures Identifier(participantId) == Ok(id) {
      IdentifierExactly(participantId, id);
    }
    if Identifier(messageId).Ok? && Identifier(participantId).Ok? {
      var id, actorId := Identifier(messageId).value, Identifier(participantId).value;
      IdentifierExactly(messageId, id);
      IdentifierExactly(participantId, actorId);
      forall p
        ensures FindParticipant(s.participants, scope, actorId) == Some(p) <==> Registered(s, scope, actorId, p) {
        ParticipantFound(s.participants, scope, actorId, p);
      }
      forall m ensures FindMessage(s.messages, scope, id) == Some(m) <==> Posted(s, scope, id, m) {
        MessageFound(s.participants, s.messages, scope, id, m);
      }
    }
  }
}
