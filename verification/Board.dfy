/**
 The coordination board (src/coordination/ledger.ts): append-only commands over participants, messages and
 acknowledgements, refused or applied whole.
 */
module Board {
  import opened Basics
  import opened Decimals

  datatype Refusal =
    | InvalidCommand | InvalidField | ScopeMismatch | UnknownParticipant | UnknownMessage | RegistrationConflict
    | Capacity | InvalidContext | InvalidHandoff | DomainMismatch | ThreadContextMismatch | ThreadTopicMismatch
    | IdempotencyConflict | InvalidAcknowledgement

  datatype Result<+T> = Ok(value: T) | Refused(why: Refusal)
  {
    predicate IsFailure() { Refused? }
    function PropagateFailure<U>(): Result<U>
      requires Refused?
    {
      Refused(why)
    }
    function Extract(): T
      requires Ok?
    {
      value
    }
  }

  /* ---- Records ---- */

  datatype Context = Context(domain: string, releaseId: string, buildId: string, knownAt: string)

  datatype Participant = Participant(
    id: string, name: string, kind: string, version: string, purpose: string, authority: string, runtime: string,
    status: string, scope: string, domains: seq<string>, inputs: seq<string>, outputs: seq<string>,
    capabilities: seq<string>, reference: string)

  datatype Draft = Draft(
    requestId: string, authorId: string, recipientId: Option<string>, kind: string, topic: string, title: string,
    body: string, context: Option<Context>, replyTo: Option<string>)

  datatype Message = Message(draft: Draft, id: string, sequence: nat, scope: string, createdAt: string)

  datatype Acknowledgement = Acknowledgement(messageId: string, participantId: string, scope: string, createdAt: string)

  datatype State = State(
    participants: seq<Participant>, messages: seq<Message>, acknowledgements: seq<Acknowledgement>)

  /** A command as it arrives: its text fields unread; a command of any other shape is Malformed. */
  datatype Command =
    | Register(participant: Participant)
    | Post(message: Draft)
    | Acknowledge(messageId: string, participantId: string)
    | Malformed

  const DOMAINS: seq<string> := ["CARAVAN", "TRADEWIND", "LANDSHARK"]
  const KINDS: seq<string> := ["NOTE", "REQUEST", "HANDOFF", "BLOCKER", "RESULT"]
  const AUTHORITIES: seq<string> := ["canonical", "evidence", "coordination", "derived", "projection", "verification"]
  const RUNTIMES: seq<string> := ["Rust", "C++", "Python", "JavaScript", "Unassigned"]
  const MAX_PARTICIPANTS := 200
  const MAX_MESSAGES := 5000

  /* ---- Fields ---- */

  /** The characters that trimming removes. */
  predicate Space(c: char) {
    var u := c as int;
    0x09 <= u <= 0x0D || u == 0x20 || u == 0xA0 || u == 0x1680 || 0x2000 <= u <= 0x200A
    || u == 0x2028 || u == 0x2029 || u == 0x202F || u == 0x205F || u == 0x3000 || u == 0xFEFF
  }

  function TrimStart(s: string): string { if s != [] && Space(s[0]) then TrimStart(s[1..]) else s }

  function TrimEnd(s: string): string { if s != [] && Space(s[|s| - 1]) then TrimEnd(s[..|s| - 1]) else s }

  function Trim(s: string): string { TrimEnd(TrimStart(s)) }

  function Text(s: string, max: nat): Result<string> {
    if Trim(s) == [] || |s| > max then Refused(InvalidField) else Ok(Trim(s))
  }

  predicate StableChar(c: char) {
    'A' <= c <= 'Z' || 'a' <= c <= 'z' || '0' <= c <= '9' || c == '.' || c == '_' || c == ':' || c == '/' || c == '-'
  }

  predicate StableId(s: string) {
    s != [] && ('A' <= s[0] <= 'Z' || 'a' <= s[0] <= 'z' || '0' <= s[0] <= '9') && forall c | c in s :: StableChar(c)
  }

  function Identifier(s: string): Result<string> {
    var id :- Text(s, 180);
    if StableId(id) then Ok(id) else Refused(InvalidField)
  }

  function Choice(s: string, choices: seq<string>): Result<string> {
    if s in choices then Ok(s) else Refused(InvalidField)
  }

  function Texts(values: seq<string>): Result<seq<string>> {
    if |values| > 32 then Refused(InvalidField)
    else
      var read :- EachText(values);
      if Unique(read) then Ok(read) else Refused(InvalidField)
  }

  function EachText(values: seq<string>): Result<seq<string>> {
    if values == [] then Ok([])
    else
      var first :- Text(values[0], 180);
      var rest :- EachText(values[1..]);
      Ok([first] + rest)
  }

  predicate Unique(values: seq<string>) { forall i, j :: 0 <= i < j < |values| ==> values[i] != values[j] }

  function OptionalIdentifier(s: Option<string>): Result<Option<string>> {
    if s.None? then Ok(None)
    else
      var id :- Identifier(s.value);
      Ok(Some(id))
  }

  function ParseContext(c: Option<Context>, allowed: seq<Context>): Result<Option<Context>> {
    if c.None? || c.value in allowed then Ok(c) else Refused(InvalidContext)
  }

  function ParseParticipant(p: Participant, scope: string): Result<Participant> {
    if p.scope != scope then Refused(ScopeMismatch)
    else
      var domains :- Texts(p.domains);
      if exists d | d in domains :: d !in DOMAINS then Refused(InvalidField)
      else if domains == [] then Refused(InvalidField)
      else
        var id :- Identifier(p.id);
        var name :- Text(p.name, 180);
        var kind :- Choice(p.kind, ["AGENT", "APPARATUS"]);
        var version :- Text(p.version, 40);
        var purpose :- Text(p.purpose, 1200);
        var authority :- Choice(p.authority, AUTHORITIES);
        var runtime :- Choice(p.runtime, RUNTIMES);
        var status :- Choice(p.status, ["LOCAL"]);
        var inputs :- Texts(p.inputs);
        var outputs :- Texts(p.outputs);
        var capabilities :- Texts(p.capabilities);
        var reference :- Text(p.reference, 500);
        Ok(Participant(id, name, kind, version, purpose, authority, runtime, status, scope, domains,
                       inputs, outputs, capabilities, reference))
  }

  function ParseDraft(m: Draft, allowed: seq<Context>): Result<Draft> {
    var requestId :- Identifier(m.requestId);
    var authorId :- Identifier(m.authorId);
    var recipientId :- OptionalIdentifier(m.recipientId);
    var kind :- Choice(m.kind, KINDS);
    var topic :- Text(m.topic, 80);
    var title :- Text(m.title, 180);
    var body :- Text(m.body, 4000);
    var context :- ParseContext(m.context, allowed);
    var replyTo :- OptionalIdentifier(m.replyTo);
    Ok(Draft(requestId, authorId, recipientId, kind, topic, title, body, context, replyTo))
  }

  /* ---- Looking things up: the first that matches ---- */

  function FindParticipant(ps: seq<Participant>, scope: string, id: string): Option<Participant> {
    if ps == [] then None
    else if ps[0].scope == scope && ps[0].id == id then Some(ps[0])
    else FindParticipant(ps[1..], scope, id)
  }

  function FindMessage(ms: seq<Message>, scope: string, id: string): Option<Message> {
    if ms == [] then None
    else if ms[0].scope == scope && ms[0].id == id then Some(ms[0])
    else FindMessage(ms[1..], scope, id)
  }

  function FindRequest(ms: seq<Message>, scope: string, authorId: string, requestId: string): Option<Message> {
    if ms == [] then None
    else if ms[0].scope == scope && ms[0].draft.authorId == authorId
      && ms[0].draft.requestId == requestId then Some(ms[0])
    else FindRequest(ms[1..], scope, authorId, requestId)
  }

  /* What a scope holds, in order. */

  function ParticipantsIn(ps: seq<Participant>, scope: string): seq<Participant> {
    if ps == [] then []
    else ParticipantsIn(ps[..|ps| - 1], scope) + (if ps[|ps| - 1].scope == scope then [ps[|ps| - 1]] else [])
  }

  function MessagesIn(ms: seq<Message>, scope: string): seq<Message> {
    if ms == [] then []
    else MessagesIn(ms[..|ms| - 1], scope) + (if ms[|ms| - 1].scope == scope then [ms[|ms| - 1]] else [])
  }

  function AcknowledgementsIn(acks: seq<Acknowledgement>, scope: string): seq<Acknowledgement> {
    if acks == [] then []
    else
      AcknowledgementsIn(acks[..|acks| - 1], scope)
      + (if acks[|acks| - 1].scope == scope then [acks[|acks| - 1]] else [])
  }

  /** One scope's part of the board. */
  function ScopeState(s: State, scope: string): State {
    State(ParticipantsIn(s.participants, scope), MessagesIn(s.messages, scope),
      AcknowledgementsIn(s.acknowledgements, scope))
  }

  function HighWater(ms: seq<Message>): nat {
    if ms == [] then 0
    else
      var rest := HighWater(ms[..|ms| - 1]);
      if ms[|ms| - 1].sequence > rest then ms[|ms| - 1].sequence else rest
  }

  function MessageId(sequence: nat): string { "MSG-" + Padded(sequence, 5) }

  /* ---- Commands ---- */

  function ApplyRegister(s: State, scope: string, p: Participant): Result<State> {
    var next :- ParseParticipant(p, scope);
    var existing := FindParticipant(s.participants, scope, next.id);
    if existing.Some? then (if existing.value == next then Ok(s) else Refused(RegistrationConflict))
    else if |ParticipantsIn(s.participants, scope)| >= MAX_PARTICIPANTS then Refused(Capacity)
    else Ok(s.(participants := s.participants + [next]))
  }

  /** Who may send what to whom. */
  function Checked(s: State, scope: string, d: Draft): Result<bool> {
    var author := FindParticipant(s.participants, scope, d.authorId);
    if author.None? then Refused(UnknownParticipant)
    else
      var recipient := if d.recipientId.Some? then FindParticipant(s.participants, scope, d.recipientId.value)
        else None;
      if d.recipientId.Some? && recipient.None? then Refused(UnknownParticipant)
      else if d.kind == "HANDOFF"
        && (recipient.None? || recipient.value.id == author.value.id) then Refused(InvalidHandoff)
      else if d.context.Some? && (d.context.value.domain !in author.value.domains
                                  || (recipient.Some? && d.context.value.domain !in recipient.value.domains))
      then Refused(DomainMismatch)
      else if d.replyTo.Some? then
        var parent := FindMessage(s.messages, scope, d.replyTo.value);
        if parent.None? then Refused(UnknownMessage)
        else if parent.value.draft.context != d.context then Refused(ThreadContextMismatch)
        else if parent.value.draft.topic != d.topic then Refused(ThreadTopicMismatch)
        else Ok(true)
      else Ok(true)
  }

  function ApplyPost(s: State, scope: string, m: Draft, allowed: seq<Context>, at: string): Result<State> {
    var d :- ParseDraft(m, allowed);
    var _ :- Checked(s, scope, d);
    var prior := FindRequest(s.messages, scope, d.authorId, d.requestId);
    if prior.Some? then (if prior.value.draft == d then Ok(s) else Refused(IdempotencyConflict))
    else if |MessagesIn(s.messages, scope)| >= MAX_MESSAGES then Refused(Capacity)
    else
      var sequence := HighWater(MessagesIn(s.messages, scope)) + 1;
      Ok(s.(messages := s.messages + [Message(d, MessageId(sequence), sequence, scope, at)]))
  }

  predicate Acknowledged(acks: seq<Acknowledgement>, scope: string, messageId: string, participantId: string) {
    exists a | a in acks :: a.scope == scope && a.messageId == messageId && a.participantId == participantId
  }

  function ApplyAcknowledge(s: State, scope: string, messageId: string, participantId: string,
      at: string): Result<State> {
    var id :- Identifier(messageId);
    var actorId :- Identifier(participantId);
    var actor := FindParticipant(s.participants, scope, actorId);
    if actor.None? then Refused(UnknownParticipant)
    else
      var found := FindMessage(s.messages, scope, id);
      if found.None? then Refused(UnknownMessage)
      else
        var d := found.value.draft;
        if d.authorId == actorId || (d.recipientId.Some? && d.recipientId.value != actorId)
          then Refused(InvalidAcknowledgement)
        else if d.context.Some? && d.context.value.domain !in actor.value.domains then Refused(DomainMismatch)
        else if Acknowledged(s.acknowledgements, scope, id, actorId) then Ok(s)
        else Ok(s.(acknowledgements := s.acknowledgements + [Acknowledgement(id, actorId, scope, at)]))
  }

  /** Applies a command whole, or refuses it. */
  function ApplyCommand(s: State, scope: string, c: Command, allowed: seq<Context>, at: string): Result<State> {
    match c
    case Register(p) => ApplyRegister(s, scope, p)
    case Post(m) => ApplyPost(s, scope, m, allowed, at)
    case Acknowledge(messageId, participantId) => ApplyAcknowledge(s, scope, messageId, participantId, at)
    case Malformed => Refused(InvalidCommand)
  }
}
