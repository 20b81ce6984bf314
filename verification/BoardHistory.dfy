/**
 What every history of the coordination board keeps (src/coordination/ledger.ts): commands accepted once,
 numbering, threads and scopes.
 */
module BoardHistory {
  import opened Basics
  import opened Board

  /* ---- Boards only grow ---- */

  ghost predicate Extends(s: State, t: State) {
    s.participants <= t.participants && s.messages <= t.messages && s.acknowledgements <= t.acknowledgements
  }

  lemma AppliedExtends(s: State, scope: string, c: Command, allowed: seq<Context>, at: string)
    requires ApplyCommand(s, scope, c, allowed, at).Ok?
    ensures Extends(s, ApplyCommand(s, scope, c, allowed, at).value)
  {
    hide ParseParticipant, ParseDraft, Checked, Identifier, FindMessage, FindRequest, HighWater, MessageId;
  }

  /** One entry of a log: a command, the scope it was bound to and the time it was taken. */
  datatype Entry = Entry(scope: string, command: Command, at: string)

  /** Refused commands leave the board as it was. */
  function After(s: State, e: Entry, allowed: seq<Context>): State {
    match ApplyCommand(s, e.scope, e.command, allowed, e.at)
    case Ok(t) => t
    case Refused(_) => s
  }

  function Run(s: State, entries: seq<Entry>, allowed: seq<Context>): State {
    if entries == [] then s else After(Run(s, entries[..|entries| - 1], allowed), entries[|entries| - 1], allowed)
  }

  lemma {:induction false} RunExtends(s: State, entries: seq<Entry>, allowed: seq<Context>)
    ensures Extends(s, Run(s, entries, allowed))
  {
    hide ApplyCommand;
    if entries != [] {
      var before, e := Run(s, entries[..|entries| - 1], allowed), entries[|entries| - 1];
      RunExtends(s, entries[..|entries| - 1], allowed);
      if ApplyCommand(before, e.scope, e.command, allowed, e.at).Ok? {
        AppliedExtends(before, e.scope, e.command, allowed, e.at);
      }
    }
  }

  lemma {:induction false} ParticipantStays(a: seq<Participant>, b: seq<Participant>, scope: string, id: string)
    requires a <= b && FindParticipant(a, scope, id).Some?
    ensures FindParticipant(b, scope, id) == FindParticipant(a, scope, id)
  {
    assert a != [] && b != [] && a[0] == b[0];
    if !(a[0].scope == scope && a[0].id == id) { ParticipantStays(a[1..], b[1..], scope, id); }
  }

  lemma {:induction false} MessageStays(a: seq<Message>, b: seq<Message>, scope: string, id: string)
    requires a <= b && FindMessage(a, scope, id).Some?
    ensures FindMessage(b, scope, id) == FindMessage(a, scope, id)
  {
    assert a != [] && b != [] && a[0] == b[0];
    if !(a[0].scope == scope && a[0].id == id) { MessageStays(a[1..], b[1..], scope, id); }
  }

  lemma {:induction false} RequestStays(a: seq<Message>, b: seq<Message>, scope: string, authorId: string,
      requestId: string)
    requires a <= b && FindRequest(a, scope, authorId, requestId).Some?
    ensures FindRequest(b, scope, authorId, requestId) == FindRequest(a, scope, authorId, requestId)
  {
    assert a != [] && b != [] && a[0] == b[0];
    if !(a[0].scope == scope && a[0].draft.authorId == authorId && a[0].draft.requestId == requestId) {
      RequestStays(a[1..], b[1..], scope, authorId, requestId);
    }
  }

  lemma {:induction false} NewParticipantFound(a: seq<Participant>, p: Participant)
    requires FindParticipant(a, p.scope, p.id).None?
    ensures FindParticipant(a + [p], p.scope, p.id) == Some(p)
  {
    if a == [] {
      assert a + [p] == [p];
    } else {
      NewParticipantFound(a[1..], p);
      assert (a + [p])[1..] == a[1..] + [p];
    }
  }

  lemma {:induction false} NewRequestFound(a: seq<Message>, m: Message)
    requires FindRequest(a, m.scope, m.draft.authorId, m.draft.requestId).None?
    ensures FindRequest(a + [m], m.scope, m.draft.authorId, m.draft.requestId) == Some(m)
  {
    if a == [] {
      assert a + [m] == [m];
    } else {
      NewRequestFound(a[1..], m);
      assert (a + [m])[1..] == a[1..] + [m];
    }
  }

  lemma CheckedStays(s: State, t: State, scope: string, d: Draft)
    requires Extends(s, t) && Checked(s, scope, d).Ok?
    ensures Checked(t, scope, d).Ok?
  {
    ParticipantStays(s.participants, t.participants, scope, d.authorId);
    if d.recipientId.Some? { ParticipantStays(s.participants, t.participants, scope, d.recipientId.value); }
    if d.replyTo.Some? { MessageStays(s.messages, t.messages, scope, d.replyTo.value); }
  }

  /** A command accepted once changes nothing in any later state of the board, and is never refused there. */
  lemma AcceptedOnceIsNoOpEverAfter(
    s: State, scope: string, c: Command, allowed: seq<Context>, at: string, entries: seq<Entry>, later: string)
    requires ApplyCommand(s, scope, c, allowed, at).Ok?
    ensures var t := Run(ApplyCommand(s, scope, c, allowed, at).value, entries, allowed);
      ApplyCommand(t, scope, c, allowed, later) == Ok(t)
  {
    hide ParseParticipant, ParseDraft, Checked, Identifier, Run, HighWater, MessageId, MessagesIn, ParticipantsIn;
    var u := ApplyCommand(s, scope, c, allowed, at).value;
    var t := Run(u, entries, allowed);
    RunExtends(u, entries, allowed);
    AppliedExtends(s, scope, c, allowed, at);
    match c
    case Register(p) =>
      var next := ParseParticipant(p, scope).value;
      assert next.scope == scope by { ParsedScope(p, scope); }
      if FindParticipant(s.participants, scope, next.id).None? { NewParticipantFound(s.participants, next); }
      ParticipantStays(u.participants, t.participants, scope, next.id);
    case Post(m) =>
      var d := ParseDraft(m, allowed).value;
      CheckedStays(s, t, scope, d);
      if FindRequest(s.messages, scope, d.authorId, d.requestId).None? {
        NewRequestFound(s.messages, u.messages[|s.messages|]);
      }
      RequestStays(u.messages, t.messages, scope, d.authorId, d.requestId);
    case Acknowledge(messageId, participantId) =>
      var id, actorId := Identifier(messageId).value, Identifier(participantId).value;
      ParticipantStays(s.participants, t.participants, scope, actorId);
      MessageStays(s.messages, t.messages, scope, id);
      AcknowledgedStays(u.acknowledgements, t.acknowledgements, scope, id, actorId);
  }

  lemma ParsedScope(p: Participant, scope: string)
    requires ParseParticipant(p, scope).Ok?
    ensures ParseParticipant(p, scope).value.scope == scope
  {
    hide Text, Texts, Identifier, Choice;
  }

  lemma AcknowledgedStays(a: seq<Acknowledgement>, b: seq<Acknowledgement>, scope: string, messageId: string,
      participantId: string)
    requires a <= b && Acknowledged(a, scope, messageId, participantId)
    ensures Acknowledged(b, scope, messageId, participantId)
  {
    var x :| x in a && x.scope == scope && x.messageId == messageId && x.participantId == participantId;
    assert x in b;
  }

  /* ---- What every reachable board keeps ---- */

  /** A message as it was admitted, after the messages before it. */
  predicate AdmittedMessage(ps: seq<Participant>, before: seq<Message>, m: Message) {
    && m.sequence == |MessagesIn(before, m.scope)| + 1 && m.sequence <= MAX_MESSAGES
    && m.id == MessageId(m.sequence)
    && FindRequest(before, m.scope, m.draft.authorId, m.draft.requestId).None?
    && Checked(State(ps, before, []), m.scope, m.draft).Ok?
  }

  predicate HistoryOk(ps: seq<Participant>, ms: seq<Message>) {
    ms == [] || (HistoryOk(ps, ms[..|ms| - 1]) && AdmittedMessage(ps, ms[..|ms| - 1], ms[|ms| - 1]))
  }

  predicate ParticipantsOk(ps: seq<Participant>) {
    ps == []
    || (var p := ps[|ps| - 1];
        && ParticipantsOk(ps[..|ps| - 1])
        && FindParticipant(ps[..|ps| - 1], p.scope, p.id).None?
        && |ParticipantsIn(ps[..|ps| - 1], p.scope)| < MAX_PARTICIPANTS)
  }

  /** An acknowledgement comes from somebody else, to whom the message was addressed or broadcast. */
  predicate AcknowledgementOk(ps: seq<Participant>, ms: seq<Message>, a: Acknowledgement) {
    var actor, found := FindParticipant(ps, a.scope, a.participantId), FindMessage(ms, a.scope, a.messageId);
    && actor.Some? && found.Some?
    && var d := found.value.draft;
       && d.authorId != a.participantId && (d.recipientId.Some? ==> d.recipientId.value == a.participantId)
       && (d.context.Some? ==> d.context.value.domain in actor.value.domains)
  }

  predicate AcknowledgementsOk(ps: seq<Participant>, ms: seq<Message>, acks: seq<Acknowledgement>) {
    acks == []
    || (var a := acks[|acks| - 1];
        && AcknowledgementsOk(ps, ms, acks[..|acks| - 1])
        && AcknowledgementOk(ps, ms, a)
        && !Acknowledged(acks[..|acks| - 1], a.scope, a.messageId, a.participantId))
  }

  predicate BoardOk(s: State) {
    && ParticipantsOk(s.participants) && HistoryOk(s.participants, s.messages)
    && AcknowledgementsOk(s.participants, s.messages, s.acknowledgements)
  }

  lemma {:induction false} HistoryStays(a: seq<Participant>, b: seq<Participant>, ms: seq<Message>)
    requires a <= b && HistoryOk(a, ms)
    ensures HistoryOk(b, ms)
  {
    hide Checked, MessageId;
    if ms != [] {
      var before, m := ms[..|ms| - 1], ms[|ms| - 1];
      HistoryStays(a, b, before);
      CheckedStays(State(a, before, []), State(b, before, []), m.scope, m.draft);
    }
  }

  lemma {:induction false} AcknowledgementsStay(
    a: seq<Participant>, b: seq<Participant>, ms: seq<Message>, ns: seq<Message>, acks: seq<Acknowledgement>)
    requires a <= b && ms <= ns && AcknowledgementsOk(a, ms, acks)
    ensures AcknowledgementsOk(b, ns, acks)
  {
    if acks != [] {
      var x := acks[|acks| - 1];
      AcknowledgementsStay(a, b, ms, ns, acks[..|acks| - 1]);
      ParticipantStays(a, b, x.scope, x.participantId);
      MessageStays(ms, ns, x.scope, x.messageId);
    }
  }

  /** In every scope the messages are numbered 1, 2, 3 and so on, in order, and named by their numbers. */
  lemma {:induction false} NumberedInOrder(ps: seq<Participant>, ms: seq<Message>, scope: string, k: nat)
    requires HistoryOk(ps, ms) && k < |MessagesIn(ms, scope)|
    ensures MessagesIn(ms, scope)[k].sequence == k + 1 && MessagesIn(ms, scope)[k].id == MessageId(k + 1)
    ensures MessagesIn(ms, scope)[k].scope == scope && MessagesIn(ms, scope)[k] in ms
  {
    hide Checked, MessageId;
    var before := ms[..|ms| - 1];
    if k < |MessagesIn(before, scope)| {
      NumberedInOrder(ps, before, scope, k);
      assert forall m | m in before :: m in ms;
    }
  }

  lemma HighWaterIsCount(ps: seq<Participant>, ms: seq<Message>, scope: string)
    requires HistoryOk(ps, ms)
    ensures HighWater(MessagesIn(ms, scope)) == |MessagesIn(ms, scope)|
  {
    forall k | 0 <= k < |MessagesIn(ms, scope)| ensures MessagesIn(ms, scope)[k].sequence == k + 1 {
      NumberedInOrder(ps, ms, scope, k);
    }
    HighWaterOfNumbered(MessagesIn(ms, scope));
  }

  lemma {:induction false} HighWaterOfNumbered(ms: seq<Message>)
    requires forall k | 0 <= k < |ms| :: ms[k].sequence == k + 1
    ensures HighWater(ms) == |ms|
  {
    if ms != [] { HighWaterOfNumbered(ms[..|ms| - 1]); }
  }

  lemma RegisterKeeps(s: State, scope: string, p: Participant)
    requires BoardOk(s) && ApplyRegister(s, scope, p).Ok?
    ensures BoardOk(ApplyRegister(s, scope, p).value)
  {
    hide ParseParticipant, AdmittedMessage, AcknowledgementOk;
    var t := ApplyRegister(s, scope, p).value;
    ParsedScope(p, scope);
    if t != s {
      assert t.participants[..|t.participants| - 1] == s.participants;
      HistoryStays(s.participants, t.participants, s.messages);
      AcknowledgementsStay(s.participants, t.participants, s.messages, s.messages, s.acknowledgements);
    }
  }

  lemma PostKeeps(s: State, scope: string, m: Draft, allowed: seq<Context>, at: string)
    requires BoardOk(s) && ApplyPost(s, scope, m, allowed, at).Ok?
    ensures BoardOk(ApplyPost(s, scope, m, allowed, at).value)
  {
    hide ParseDraft, MessageId, Checked, AcknowledgementOk;
    var t := ApplyPost(s, scope, m, allowed, at).value;
    if t != s {
      HighWaterIsCount(s.participants, s.messages, scope);
      assert t.messages[..|t.messages| - 1] == s.messages;
      CheckedIgnoresReceipts(s, scope, t.messages[|s.messages|].draft);
      AcknowledgementsStay(s.participants, s.participants, s.messages, t.messages, s.acknowledgements);
    }
  }

  lemma AcknowledgeKeeps(s: State, scope: string, messageId: string, participantId: string, at: string)
    requires BoardOk(s) && ApplyAcknowledge(s, scope, messageId, participantId, at).Ok?
    ensures BoardOk(ApplyAcknowledge(s, scope, messageId, participantId, at).value)
  {
    hide Identifier, AdmittedMessage;
    var t := ApplyAcknowledge(s, scope, messageId, participantId, at).value;
    if t != s { assert t.acknowledgements[..|t.acknowledgements| - 1] == s.acknowledgements; }
  }

  lemma AppliedKeeps(s: State, scope: string, c: Command, allowed: seq<Context>, at: string)
    requires BoardOk(s) && ApplyCommand(s, scope, c, allowed, at).Ok?
    ensures BoardOk(ApplyCommand(s, scope, c, allowed, at).value)
  {
    hide BoardOk, ApplyRegister, ApplyPost, ApplyAcknowledge;
    match c
    case Register(p) => RegisterKeeps(s, scope, p);
    case Post(m) => PostKeeps(s, scope, m, allowed, at);
    case Acknowledge(messageId, participantId) => AcknowledgeKeeps(s, scope, messageId, participantId, at);
  }

  lemma CheckedIgnoresReceipts(s: State, scope: string, d: Draft)
    ensures Checked(State(s.participants, s.messages, []), scope, d) == Checked(s, scope, d)
  {
  }

  /** From a board in order, every log of commands leads to a board in order. */
  lemma {:induction false} EveryRunKeeps(s: State, entries: seq<Entry>, allowed: seq<Context>)
    requires BoardOk(s)
    ensures BoardOk(Run(s, entries, allowed))
  {
    hide BoardOk, ApplyCommand;
    if entries != [] {
      var before, e := Run(s, entries[..|entries| - 1], allowed), entries[|entries| - 1];
      EveryRunKeeps(s, entries[..|entries| - 1], allowed);
      if ApplyCommand(before, e.scope, e.command, allowed, e.at).Ok? {
        AppliedKeeps(before, e.scope, e.command, allowed, e.at);
      }
    }
  }

  /** A command bound to one scope leaves every other scope as it was. */
  lemma OtherScopesUnchanged(s: State, scope: string, c: Command, allowed: seq<Context>, at: string, other: string)
    requires ApplyCommand(s, scope, c, allowed, at).Ok? && other != scope
    ensures ScopeState(ApplyCommand(s, scope, c, allowed, at).value, other) == ScopeState(s, other)
  {
    hide ParseParticipant, ParseDraft, Identifier, MessageId, Checked, HighWater, FindMessage, FindRequest;
    var t := ApplyCommand(s, scope, c, allowed, at).value;
    match c
    case Register(p) =>
      assert ParseParticipant(p, scope).value.scope == scope by { ParsedScope(p, scope); }
      if t != s { assert t.participants[..|t.participants| - 1] == s.participants; }
    case Post(m) => if t != s { assert t.messages[..|t.messages| - 1] == s.messages; }
    case Acknowledge(messageId, participantId) =>
      if t != s { assert t.acknowledgements[..|t.acknowledgements| - 1] == s.acknowledgements; }
  }

  /* ---- Threads ---- */

  /** The message a thread began with. */
  function Root(ms: seq<Message>, m: Message): Message
    decreases m.sequence
  {
    if m.draft.replyTo.None? then m
    else
      var parent := FindMessage(ms, m.scope, m.draft.replyTo.value);
      if parent.Some? && parent.value.sequence < m.sequence then Root(ms, parent.value) else m
  }

  lemma {:induction false} FoundIsThere(ms: seq<Message>, scope: string, id: string)
    requires FindMessage(ms, scope, id).Some?
    ensures var m := FindMessage(ms, scope, id).value; m in ms && m.scope == scope && m.id == id
  {
    if !(ms[0].scope == scope && ms[0].id == id) {
      FoundIsThere(ms[1..], scope, id);
      assert forall m | m in ms[1..] :: m in ms;
    }
  }

  /** A reply's parent stands earlier in the same scope, under the same topic and release context. */
  lemma {:induction false} ParentIsEarlier(ps: seq<Participant>, ms: seq<Message>, m: Message)
    requires HistoryOk(ps, ms) && m in ms && m.draft.replyTo.Some?
    ensures var parent := FindMessage(ms, m.scope, m.draft.replyTo.value);
      && parent.Some? && parent.value in ms && parent.value.sequence < m.sequence
      && parent.value.draft.topic == m.draft.topic && parent.value.draft.context == m.draft.context
  {
    hide MessageId;
    var before, last := ms[..|ms| - 1], ms[|ms| - 1];
    assert ms == before + [last];
    var id := m.draft.replyTo.value;
    if m in before {
      ParentIsEarlier(ps, before, m);
      MessageStays(before, ms, m.scope, id);
    } else {
      assert m == last && AdmittedMessage(ps, before, last);
      FoundIsThere(before, m.scope, id);
      var parent := FindMessage(before, m.scope, id).value;
      MessageStays(before, ms, m.scope, id);
      var k := IndexInScope(ps, before, parent);
      NumberedInOrder(ps, before, m.scope, k);
    }
  }

  lemma {:induction false} IndexInScope(ps: seq<Participant>, ms: seq<Message>, m: Message) returns (k: nat)
    requires HistoryOk(ps, ms) && m in ms
    ensures k < |MessagesIn(ms, m.scope)| && MessagesIn(ms, m.scope)[k] == m
  {
    hide Checked, MessageId;
    var before, last := ms[..|ms| - 1], ms[|ms| - 1];
    assert ms == before + [last];
    if m == last {
      k := |MessagesIn(before, m.scope)|;
    } else {
      k := IndexInScope(ps, before, m);
    }
  }

  /** Every thread keeps the topic and the release context of the message that began it. */
  lemma {:induction false} ThreadKeepsTopicAndContext(ps: seq<Participant>, ms: seq<Message>, m: Message)
    requires HistoryOk(ps, ms) && m in ms
    ensures var root := Root(ms, m);
      && root in ms && root.scope == m.scope && root.draft.replyTo.None?
      && root.draft.topic == m.draft.topic && root.draft.context == m.draft.context && root.sequence <= m.sequence
    decreases m.sequence
  {
    hide HistoryOk;
    if m.draft.replyTo.Some? {
      ParentIsEarlier(ps, ms, m);
      var parent := FindMessage(ms, m.scope, m.draft.replyTo.value).value;
      FoundIsThere(ms, m.scope, m.draft.replyTo.value);
      ThreadKeepsTopicAndContext(ps, ms, parent);
    }
  }

  /** An author uses a request identifier for one message at most. */
  lemma {:induction false} OneMessagePerRequest(ps: seq<Participant>, ms: seq<Message>, a: Message, b: Message)
    requires HistoryOk(ps, ms) && a in ms && b in ms
    requires a.scope == b.scope && a.draft.authorId == b.draft.authorId && a.draft.requestId == b.draft.requestId
    ensures a == b
  {
    hide Checked, MessageId;
    var before, last := ms[..|ms| - 1], ms[|ms| - 1];
    assert ms == before + [last];
    if a in before && b in before {
      OneMessagePerRequest(ps, before, a, b);
    } else if a in before {
      RequestOf(before, a);
    } else if b in before {
      RequestOf(before, b);
    }
  }

  lemma {:induction false} RequestOf(ms: seq<Message>, m: Message)
    requires m in ms
    ensures FindRequest(ms, m.scope, m.draft.authorId, m.draft.requestId).Some?
  {
    if ms[0] != m { RequestOf(ms[1..], m); }
  }
}
