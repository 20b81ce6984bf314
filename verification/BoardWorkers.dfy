/**
 The review workers (src/coordination/contract-review.ts, src/coordination/candidate-build-review.ts): any number of
 passes over one board, interleaved call by call with everybody else, any call's answer lost, any pass stopped anywhere.
 A worker writes a result before it acknowledges a request.
 */
module BoardWorkers {
  import opened Basics
  import opened Board
  import opened BoardHistory

  datatype Reviewer = ContractReview | CandidateBuildReview

  function ReviewerId(r: Reviewer): string {
    match r
    case ContractReview => "agent.contract-review.v1"
    case CandidateBuildReview => "agent.candidate-build-review.v1"
  }

  function TopicOf(r: Reviewer): string {
    match r
    case ContractReview => "contract-review"
    case CandidateBuildReview => "candidate-build-review"
  }

  /** The requests a reviewer answers; it skips everything else in its inbox. */
  predicate Handles(r: Reviewer, m: Message) {
    && m.draft.recipientId == Some(ReviewerId(r))
    && (m.draft.kind == "REQUEST" || m.draft.kind == "HANDOFF") && m.draft.topic == TopicOf(r)
    && (r == CandidateBuildReview ==> m.draft.context == None)
  }

  /** The identifier under which a reviewer answers a message, the same in every pass. */
  function AnswerId(r: Reviewer, m: Message): string { ReviewerId(r) + ":" + m.id }

  function TitleOf(r: Reviewer, m: Message): string {
    match r
    case ContractReview =>
      var title := "Contract review: " + m.draft.title;
      if |title| > 180 then title[..180] else title
    case CandidateBuildReview => "Candidate build inspection"
  }

  function AnswerTo(r: Reviewer, m: Message, body: string): Draft {
    Draft(AnswerId(r, m), ReviewerId(r), Some(m.draft.authorId), "RESULT", m.draft.topic, TitleOf(r, m), body,
          m.draft.context, Some(m.id))
  }

  datatype Prior = NoPrior | Usable | Conflicting

  /** What a snapshot holds under the reviewer's identifier for a request; `valid` judges a candidate report's body. */
  function PriorAnswer(s: State, r: Reviewer, m: Message, valid: (string, Message) -> bool): Prior {
    match FindRequest(s.messages, m.scope, ReviewerId(r), AnswerId(r, m))
    case None => NoPrior
    case Some(prior) =>
      var d := prior.draft;
      if d.kind == "RESULT" && d.replyTo == Some(m.id) && d.recipientId == Some(m.draft.authorId)
         && d.topic == m.draft.topic && d.context == m.draft.context
         && (r == CandidateBuildReview ==>
               d.title == TitleOf(r, m) && prior.sequence > m.sequence && valid(d.body, m))
      then Usable else Conflicting
  }

  /* ---- Passes ---- */

  datatype Place =
    | Scanning
    | Looking(request: Message)
    | Posting(request: Message)
    | ReadingBack(request: Message)
    | Acknowledging(request: Message)
    | Stopped

  datatype Pass = Pass(reviewer: Reviewer, place: Place)

  datatype World = World(scope: string, allowed: seq<Context>, valid: (string, Message) -> bool)

  datatype System = System(board: State, passes: map<nat, Pass>)

  /** What becomes of a call: it may not arrive, and its answer may be lost. */
  datatype Call = Call(arrives: bool, answered: bool, at: string)

  datatype Event =
    | Others(command: Command, at: string)
    | Start(pid: nat, reviewer: Reviewer)
    | Take(pid: nat, request: Message)
    | Look(pid: nat)
    | SendAnswer(pid: nat, body: string, call: Call)
    | ReadBack(pid: nat)
    | SendReceipt(pid: nat, call: Call)
    | Crash(pid: nat)

  predicate IsReviewer(id: string) { id == ReviewerId(ContractReview) || id == ReviewerId(CandidateBuildReview) }

  /** Nobody else acts under a reviewer's identifier. */
  predicate ByOthers(c: Command) {
    match c
    case Post(m) => !IsReviewer(Trim(m.authorId))
    case Acknowledge(_, participantId) => !IsReviewer(Trim(participantId))
    case _ => true
  }

  function Called(w: World, s: State, c: Command, call: Call): State {
    if call.arrives then After(s, Entry(w.scope, c, call.at), w.allowed) else s
  }

  predicate Succeeded(w: World, s: State, c: Command, call: Call) {
    call.arrives && call.answered && ApplyCommand(s, w.scope, c, w.allowed, call.at).Ok?
  }

  function Next(w: World, s: System, e: Event): System {
    match e
    case Others(c, at) => if ByOthers(c) then s.(board := After(s.board, Entry(w.scope, c, at), w.allowed)) else s
    case Start(pid, reviewer) => if pid in s.passes then s else s.(passes := s.passes[pid := Pass(reviewer, Scanning)])
    case Crash(pid) => if pid in s.passes then Put(s, pid, Stopped) else s
    case Take(pid, m) =>
      if pid in s.passes && s.passes[pid].place.Scanning? && m in s.board.messages && m.scope == w.scope
         && Handles(s.passes[pid].reviewer, m)
      then Put(s, pid, Looking(m)) else s
    case Look(pid) =>
      if pid !in s.passes || !s.passes[pid].place.Looking? then s
      else
        var p := s.passes[pid];
        (match PriorAnswer(s.board, p.reviewer, p.place.request, w.valid)
         case NoPrior => Put(s, pid, Posting(p.place.request))
         case Usable => Put(s, pid, Acknowledging(p.place.request))
         case Conflicting => Put(s, pid, Stopped))
    case SendAnswer(pid, body, call) =>
      if pid !in s.passes || !s.passes[pid].place.Posting? then s
      else
        var p := s.passes[pid];
        if p.reviewer == CandidateBuildReview && (!w.valid(body, p.place.request) || |body| > 3500)
        then Put(s, pid, Stopped)
        else
        var c := Post(AnswerTo(p.reviewer, p.place.request, body));
        var t := s.(board := Called(w, s.board, c, call));
        if p.reviewer == CandidateBuildReview then Put(t, pid, ReadingBack(p.place.request))
        else Put(t, pid, if Succeeded(w, s.board, c, call) then Acknowledging(p.place.request) else Stopped)
    case ReadBack(pid) =>
      if pid !in s.passes || !s.passes[pid].place.ReadingBack? then s
      else
        var p := s.passes[pid];
        Put(s, pid, if PriorAnswer(s.board, p.reviewer, p.place.request, w.valid) == Usable
                    then Acknowledging(p.place.request) else Stopped)
    case SendReceipt(pid, call) =>
      if pid !in s.passes || !s.passes[pid].place.Acknowledging? then s
      else
        var p := s.passes[pid];
        var c := Acknowledge(p.place.request.id, ReviewerId(p.reviewer));
        Put(s.(board := Called(w, s.board, c, call)), pid, if Succeeded(w, s.board, c, call) then Scanning else Stopped)
  }

  function Put(s: System, pid: nat, place: Place): System
    requires pid in s.passes
  {
    s.(passes := s.passes[pid := s.passes[pid].(place := place)])
  }

  function Run(w: World, start: State, events: seq<Event>): System {
    if events == [] then System(start, map[]) else Next(w, Run(w, start, events[..|events| - 1]), events[|events| - 1])
  }
}
