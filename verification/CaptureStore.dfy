/**
 The capture store (src/acquisition/store.ts over src/data-os/local-files.ts): processes that share only
 create-only files, any of which can stop between two steps. Digests are taken to be injective, so a record
 that another record names by digest is held here by value. Instants are milliseconds.
 */
module CaptureStore {
  import opened Basics
  import opened Ordering

  type Instant = int
  type Bytes = seq<int>
  type Media = string
  type Observations = int

  const DAY_MS := 86_400_000
  const MINUTE_MS := 60_000
  const MAX_EVIDENCE_BYTES := 8 * 1024 * 1024

  /* ---- What a source brings ---- */

  datatype Adapter = Census | Statutory

  /** A parsed request: its identifier, and everything else it asks for. */
  datatype Request = Request(id: string, scope: int)

  datatype Registration = Registration(source: string, from: Instant, until: Instant, ingest: bool, derive: bool)

  datatype World = World(
    registration: (Adapter, Request) -> Registration,
    observe: (Adapter, Request, Bytes, Media) -> Option<Observations>,
    accepts: (Adapter, Media) -> bool,
    maxBytes: (Adapter, Request) -> nat)

  /** Two sources never hold one registration. */
  ghost predicate Separate(w: World) {
    forall r, q :: w.registration(Census, r) != w.registration(Statutory, q)
  }

  /** The half-open window of a source policy. */
  predicate InWindow(r: Registration, at: Instant) { r.from <= at < r.until }

  predicate MayIngest(r: Registration, at: Instant) { InWindow(r, at) && r.ingest }

  predicate PolicyAllows(r: Registration, at: Instant) { InWindow(r, at) && r.ingest && r.derive }

  /* ---- Records and files ---- */

  datatype Intent = Intent(adapter: Adapter, request: Request, startedAt: Instant, nonce: nat,
      registration: Registration)

  datatype Outcome = Captured | Quarantined | Failed
  datatype Failure = FetchFailed | RateLimited | BudgetExhausted | InvalidResponse

  /** What the evidence rail keeps under `source-capture:<id>`: the manifest and the content it names. */
  datatype Acquisition = Acquisition(registration: Registration, capturedAt: Instant, media: Media, content: Bytes)

  datatype Result = Result(
    outcome: Outcome, failure: Option<Failure>, acquisition: Option<Acquisition>, media: Option<Media>,
    observations: Option<Observations>)

  datatype Receipt = Receipt(intent: Intent, result: Result, finishedAt: Instant)

  datatype Key = Key(adapter: Adapter, id: string)
  datatype Slot = MinuteSlot(adapter: Adapter, day: int, minute: int) | DaySlot(adapter: Adapter, day: int, slot: int)

  /** One storage root. Intents and receipts live under a source's own directory, acquisitions do not. */
  datatype Files = Files(
    intents: map<Key, Intent>, receipts: map<Key, Receipt>, claims: map<Slot, Intent>,
    objects: set<Bytes>, acquisitions: map<string, Acquisition>)

  const EMPTY := Files(map[], map[], map[], {}, map[])

  function KeyOf(i: Intent): Key { Key(i.adapter, i.request.id) }

  function DayOf(t: Instant): int { t / DAY_MS }

  function MinuteOf(t: Instant): int { t % DAY_MS / MINUTE_MS }

  function MinuteClaim(i: Intent): Slot { MinuteSlot(i.adapter, DayOf(i.startedAt), MinuteOf(i.startedAt)) }

  function DayClaim(i: Intent, k: int): Slot { DaySlot(i.adapter, DayOf(i.startedAt), k) }

  predicate Holds(files: Files, s: Slot, i: Intent) { s in files.claims && files.claims[s] == i }

  predicate HoldsDaySlot(files: Files, i: Intent) { exists k | 0 <= k < 4 :: Holds(files, DayClaim(i, k), i) }

  /** The check that a source was contacted within its budget. */
  predicate BudgetHeld(files: Files, i: Intent) { Holds(files, MinuteClaim(i), i) && HoldsDaySlot(files, i) }

  predicate DaySpent(files: Files, i: Intent) { forall k | 0 <= k < 4 :: DayClaim(i, k) in files.claims }

  /** The check that a budget was refused: the minute is another's, or every day slot is. */
  predicate DenialStands(files: Files, i: Intent) {
    MinuteClaim(i) in files.claims
    && (files.claims[MinuteClaim(i)] == i ==> DaySpent(files, i) && !HoldsDaySlot(files, i))
  }

  /* ---- Reading back ---- */

  datatype Found<T> = Missing | Here(value: T) | Broken

  /** The evidence rail's own readback. */
  function InspectIntake(files: Files, id: string): Found<Acquisition> {
    if id !in files.acquisitions then Missing
    else
      var a := files.acquisitions[id];
      if 1 <= |a.content| <= MAX_EVIDENCE_BYTES && MayIngest(a.registration, a.capturedAt) && a.content in files.objects
      then Here(a) else Broken
  }

  function ReadIntent(w: World, files: Files, key: Key): Found<Intent> {
    if key !in files.intents then Missing
    else
      var i := files.intents[key];
      if KeyOf(i) == key && i.registration == w.registration(i.adapter, i.request)
        && PolicyAllows(i.registration, i.startedAt)
      then Here(i) else Broken
  }

  datatype Inspection =
    | Absent
    | Present(intent: Intent, receipt: Option<Receipt>, acquisition: Option<Acquisition>,
              observations: Option<Observations>)
    | Invalid

  predicate EvidenceMatches(w: World, files: Files, i: Intent, a: Acquisition) {
    && w.accepts(i.adapter, a.media)
    && a.registration == i.registration
    && a.capturedAt >= i.startedAt
    && |a.content| <= w.maxBytes(i.adapter, i.request)
    && BudgetHeld(files, i)
  }

  function Observed(w: World, i: Intent, a: Acquisition): Option<Observations> {
    w.observe(i.adapter, i.request, a.content, a.media)
  }

  predicate FailureMatches(files: Files, i: Intent, r: Result, a: Option<Acquisition>) {
    && (r.failure == Some(FetchFailed) || r.failure == Some(RateLimited) || r.failure == Some(BudgetExhausted))
    && r.acquisition == None && r.media == None && r.observations == None && a == None
    && (if r.failure == Some(BudgetExhausted) then DenialStands(files, i) else BudgetHeld(files, i))
  }

  predicate SuccessMatches(w: World, files: Files, i: Intent, r: Receipt, a: Option<Acquisition>) {
    && BudgetHeld(files, i)
    && a.Some? && r.result.acquisition == a && r.finishedAt >= a.value.capturedAt
    && r.result.media == Some(a.value.media) && w.accepts(i.adapter, a.value.media)
    && PolicyAllows(i.registration, a.value.capturedAt)
    && var seen := Observed(w, i, a.value);
       if r.result.outcome == Captured then
         seen.Some? && r.result.failure == None && r.result.observations == seen
       else seen == None && r.result.failure == Some(InvalidResponse) && r.result.observations == None
  }

  predicate ReceiptMatches(w: World, files: Files, i: Intent, r: Receipt, a: Option<Acquisition>) {
    && r.intent == i && r.finishedAt >= i.startedAt
    && if r.result.outcome == Failed then FailureMatches(files, i, r.result, a) else SuccessMatches(w, files, i, r, a)
  }

  /** Reopens a request's history and recomputes all of it; an identifier outside the closed shape addresses none. */
  function Inspect(w: World, files: Files, key: Key): Inspection {
    if !Identifier(key.id) then Invalid else History(w, files, key)
  }

  function History(w: World, files: Files, key: Key): Inspection {
    match ReadIntent(w, files, key)
    case Broken => Invalid
    case Missing =>
      if key in files.receipts || InspectIntake(files, key.id) != Missing then Invalid else Absent
    case Here(i) =>
      match InspectIntake(files, key.id)
      case Broken => Invalid
      case Missing => Judged(w, files, i, None)
      case Here(a) => if EvidenceMatches(w, files, i, a) then Judged(w, files, i, Some(a)) else Invalid
  }

  function Judged(w: World, files: Files, i: Intent, a: Option<Acquisition>): Inspection {
    if KeyOf(i) !in files.receipts then Present(i, None, a, None)
    else
      var r := files.receipts[KeyOf(i)];
      if !ReceiptMatches(w, files, i, r, a) then Invalid
      else Present(i, Some(r), a, if r.result.outcome == Failed then None else Observed(w, i, a.value))
  }

  /* ---- A capture, one file step at a time ---- */

  datatype Answer = Refused(rateLimited: bool) | Response(bytes: Bytes, media: Media)

  /** What the outside gives one process: clock readings, the switch, and the source's answer. */
  datatype Script = Script(enabled: bool, start: Instant, captured: Instant, finished: Instant, answer: Answer)

  datatype Place =
    | Begin
    | Opening
    | ClaimingMinute(intent: Intent)
    | ClaimingDay(intent: Intent, slot: nat)
    | Contacting(intent: Intent)
    | Waiting(intent: Intent)
    | Intake(intent: Intent, acquisition: Acquisition)
    | Storing(intent: Intent, acquisition: Acquisition)
    | Publishing(intent: Intent, acquisition: Acquisition)
    | Finishing(intent: Intent, earliest: Instant, result: Result)
    | Reporting(intent: Intent)
    | Returned(inspection: Inspection)
    | Stopped

  datatype Process = Process(adapter: Adapter, request: Request, place: Place)

  function Failing(why: Failure): Result { Result(Failed, Some(why), None, None, None) }

  /** The result that follows once the bytes are on the evidence rail: parsed only then. */
  function Parsed(w: World, i: Intent, a: Acquisition): Result {
    match Observed(w, i, a)
    case Some(o) => Result(Captured, None, Some(a), Some(a.media), Some(o))
    case None => Result(Quarantined, Some(InvalidResponse), Some(a), Some(a.media), None)
  }

  predicate Usable(w: World, i: Intent, bytes: Bytes, media: Media) {
    1 <= |bytes| <= w.maxBytes(i.adapter, i.request) && w.accepts(i.adapter, media)
  }

  /** A create-only publication of a claim. */
  function Claim(files: Files, s: Slot, i: Intent): Files { files.(claims := files.claims[s := i]) }

  datatype Moved = Moved(files: Files, place: Place, contacted: bool)

  /** One step of a process. A crash is a process that takes no further step. */
  function Move(w: World, files: Files, p: Process, nonce: nat, x: Script): Moved {
    match p.place
    case Begin =>
      var found := Inspect(w, files, Key(p.adapter, p.request.id));
      if found.Absent? then Moved(files, if x.enabled then Opening else Stopped, false)
      else if found.Present? && found.intent.request == p.request then Moved(files, Returned(found), false)
      else Moved(files, Stopped, false)
    case Opening =>
      var i := Intent(p.adapter, p.request, x.start, nonce, w.registration(p.adapter, p.request));
      if !PolicyAllows(i.registration, i.startedAt) then Moved(files, Stopped, false)
      else if KeyOf(i) in files.intents then Moved(files, Begin, false)
      else Moved(files.(intents := files.intents[KeyOf(i) := i]), ClaimingMinute(i), false)
    case ClaimingMinute(i) =>
      if MinuteClaim(i) in files.claims then Moved(files, Finishing(i, i.startedAt, Failing(BudgetExhausted)), false)
      else Moved(Claim(files, MinuteClaim(i), i), ClaimingDay(i, 0), false)
    case ClaimingDay(i, k) =>
      if k >= 4 then Moved(files, Finishing(i, i.startedAt, Failing(BudgetExhausted)), false)
      else if DayClaim(i, k) in files.claims then Moved(files, ClaimingDay(i, k + 1), false)
      else Moved(Claim(files, DayClaim(i, k), i), Contacting(i), false)
    case Contacting(i) => Moved(files, Waiting(i), true)
    case Waiting(i) =>
      (match x.answer
       case Refused(limited) =>
         Moved(files, Finishing(i, i.startedAt, Failing(if limited then RateLimited else FetchFailed)), false)
       case Response(bytes, media) =>
         if x.captured < i.startedAt then Moved(files, Stopped, false)
         else if !Usable(w, i, bytes, media) then Moved(files, Finishing(i, x.captured, Failing(FetchFailed)), false)
         else Moved(files, Intake(i, Acquisition(i.registration, x.captured, media, bytes)), false))
    case Intake(i, a) =>
      if |a.content| > MAX_EVIDENCE_BYTES || !MayIngest(a.registration, a.capturedAt) then Moved(files, Stopped, false)
      else (match InspectIntake(files, i.request.id)
            case Missing => Moved(files, Storing(i, a), false)
            case Here(b) => if b == a then Moved(files, Finishing(i, a.capturedAt, Parsed(w, i, a)), false)
                            else Moved(files, Stopped, false)
            case Broken => Moved(files, Stopped, false))
    case Storing(i, a) => Moved(files.(objects := files.objects + {a.content}), Publishing(i, a), false)
    case Publishing(i, a) =>
      var id := i.request.id;
      if id in files.acquisitions && files.acquisitions[id] != a then Moved(files, Stopped, false)
      else Moved(files.(acquisitions := files.acquisitions[id := a]), Finishing(i, a.capturedAt, Parsed(w, i, a)),
        false)
    case Finishing(i, earliest, result) =>
      if x.finished < earliest then Moved(files, Stopped, false)
      else
        var r := Receipt(i, result, x.finished);
        if KeyOf(i) in files.receipts then Moved(files, Stopped, false)
        else
          Moved(files.(receipts := files.receipts[KeyOf(i) := r]), Reporting(i), false)
    case Reporting(i) => Moved(files, Returned(Inspect(w, files, KeyOf(i))), false)
    case Returned(_) => Moved(files, p.place, false)
    case Stopped => Moved(files, Stopped, false)
  }

  /* ---- Runs ---- */

  datatype State = State(files: Files, processes: map<nat, Process>, contacts: seq<Intent>)

  const START := State(EMPTY, map[], [])

  /** A process starts, moves or crashes; every process has its own number, which stands for its fresh nonce. */
  datatype Event =
    | Launch(pid: nat, adapter: Adapter, request: Request)
    | Step(pid: nat, script: Script)
    | Crash(pid: nat)

  function Next(w: World, s: State, e: Event): State {
    match e
    case Launch(pid, adapter, request) =>
      if pid in s.processes then s else s.(processes := s.processes[pid := Process(adapter, request, Begin)])
    case Step(pid, x) =>
      if pid !in s.processes then s
      else
        var p := s.processes[pid];
        var m := Move(w, s.files, p, pid, x);
        State(m.files, s.processes[pid := p.(place := m.place)],
              if m.contacted && p.place.Contacting? then s.contacts + [p.place.intent] else s.contacts)
    case Crash(pid) =>
      if pid !in s.processes then s else s.(processes := s.processes[pid := s.processes[pid].(place := Stopped)])
  }

  function Run(w: World, events: seq<Event>): State {
    if events == [] then START else Next(w, Run(w, events[..|events| - 1]), events[|events| - 1])
  }
}
