/**
 Capture schedules: the planner (src/acquisition/schedule.ts), run identifiers and the history on disk
 (src/acquisition/statutoryRun.ts).
 */
module CaptureSchedule {
  import opened Basics
  import opened Decimals
  import opened Ordering
  import Store = CaptureStore

  type Instant = Store.Instant

  const HOUR_MS := 3_600_000

  /** A declared schedule; the window is half-open. */
  datatype Schedule = Schedule(
    id: string, minimumIntervalHours: int, notBefore: Instant, notAfter: Instant, maxRuns: int, enabled: bool)

  predicate Declared(s: Schedule) {
    Identifier(s.id) && 1 <= s.minimumIntervalHours <= 8760 && 1 <= s.maxRuns <= 1000 && s.notBefore < s.notAfter
  }

  function IntervalOf(s: Schedule): int { s.minimumIntervalHours * HOUR_MS }

  datatype RunState = Captured | Quarantined | Failed | Incomplete
  datatype ScheduleRun = ScheduleRun(startedAt: Instant, state: RunState)

  datatype Decision = Due | NotDue | WindowNotOpen | WindowClosed | RunBudgetSpent | Disabled | HistoryIncomplete

  datatype Plan = Plan(
    decision: Decision, collects: bool, runsSpent: int, runsRemaining: int,
    lastRunAt: Option<Instant>, nextEligibleAt: Option<Instant>)

  /* ---- The planner ---- */

  function ByStart(a: ScheduleRun, b: ScheduleRun): int { a.startedAt - b.startedAt }

  predicate AnyIncomplete(runs: seq<ScheduleRun>) { exists r | r in runs :: r.state == Incomplete }

  function Planned(s: Schedule, decision: Decision, spent: int, last: Option<Instant>, next: Option<Instant>): Plan {
    Plan(decision, decision == Due, spent, if s.maxRuns > spent then s.maxRuns - spent else 0, last, next)
  }

  /** The decision over a readable history; None when the schedule itself is not a declared one. */
  function PlanCapture(s: Schedule, history: seq<ScheduleRun>, at: Instant): Option<Plan> {
    if !Declared(s) then None
    else
      var runs := Sort(ByStart, history);
      var spent := |runs|;
      var last := if spent == 0 then None else Some(runs[spent - 1].startedAt);
      Some(
        if AnyIncomplete(runs) then Planned(s, HistoryIncomplete, spent, last, None)
        else if !s.enabled then Planned(s, Disabled, spent, last, None)
        else if spent >= s.maxRuns then Planned(s, RunBudgetSpent, spent, last, None)
        else if at < s.notBefore then Planned(s, WindowNotOpen, spent, last, Some(s.notBefore))
        else if at >= s.notAfter then Planned(s, WindowClosed, spent, last, None)
        else if last.Some? && at < last.value + IntervalOf(s) then
          Planned(s, NotDue, spent, last, Some(last.value + IntervalOf(s)))
        else Planned(s, Due, spent, last, Some(at)))
  }

  /** When a capture may be made, said without any order of asking. */
  ghost predicate MayCollect(s: Schedule, history: seq<ScheduleRun>, at: Instant) {
    && s.enabled && |history| < s.maxRuns && s.notBefore <= at < s.notAfter
    && forall r | r in history :: r.state != Incomplete && at >= r.startedAt + s.minimumIntervalHours * 3_600_000
  }

  /** The start of the last run: some run began then, and none later. */
  ghost predicate IsLatest(history: seq<ScheduleRun>, t: Instant) {
    (exists r | r in history :: r.startedAt == t) && forall r | r in history :: r.startedAt <= t
  }

  lemma LatestIsLast(history: seq<ScheduleRun>)
    ensures var runs := Sort(ByStart, history);
      && |runs| == |history| && (forall r :: r in runs <==> r in history)
      && (history != [] ==> forall r | r in history :: r.startedAt <= runs[|runs| - 1].startedAt)
  {
    var runs := Sort(ByStart, history);
    SameElements(runs, history);
    SortSorts(ByStart, history);
    forall r | r in history ensures r.startedAt <= runs[|runs| - 1].startedAt {
      assert r in runs;
      var k :| 0 <= k < |runs| && runs[k] == r;
      assert k == |runs| - 1 || ByStart(runs[k], runs[|runs| - 1]) <= 0;
    }
  }

  /** The plan says to collect exactly when the declaration and the whole history allow it. */
  lemma CollectsExactly(s: Schedule, history: seq<ScheduleRun>, at: Instant)
    requires Declared(s)
    ensures PlanCapture(s, history, at).value.collects <==> MayCollect(s, history, at)
    ensures var p := PlanCapture(s, history, at).value;
      && p.runsSpent == |history|
      && p.runsRemaining == (if |history| < s.maxRuns then s.maxRuns - |history| else 0)
      && (p.lastRunAt == None <==> history == [])
      && (p.lastRunAt.Some? ==> IsLatest(history, p.lastRunAt.value))
  {
    hide Sort;
    LatestIsLast(history);
    var runs := Sort(ByStart, history);
    if runs != [] {
      assert runs[|runs| - 1] in runs;
    }
  }

  /** What a plan answers and what it names: the first reason not to collect, and when the next run could begin. */
  ghost predicate Answers(s: Schedule, history: seq<ScheduleRun>, at: Instant, d: Decision, next: Option<Instant>) {
    var interval := s.minimumIntervalHours * 3_600_000;
    if exists r | r in history :: r.state == Incomplete then d == HistoryIncomplete && next == None
    else if !s.enabled then d == Disabled && next == None
    else if |history| >= s.maxRuns then d == RunBudgetSpent && next == None
    else if at < s.notBefore then d == WindowNotOpen && next == Some(s.notBefore)
    else if s.notAfter <= at then d == WindowClosed && next == None
    else if exists r | r in history :: at < r.startedAt + interval then
      d == NotDue && next.Some? && IsLatest(history, next.value - interval)
    else d == Due && next == Some(at)
  }

  /** Exactly the schedules within their bounds are planned, and a plan gives the right reason and the right instant. */
  lemma PlansExactly(s: Schedule, history: seq<ScheduleRun>, at: Instant)
    ensures PlanCapture(s, history, at).Some? <==>
      && Identifier(s.id) && 1 <= s.minimumIntervalHours <= 8760 && 1 <= s.maxRuns <= 1000
      && s.notBefore < s.notAfter
    ensures PlanCapture(s, history, at).Some? ==>
      var p := PlanCapture(s, history, at).value;
      Answers(s, history, at, p.decision, p.nextEligibleAt) && (p.collects <==> p.decision == Due)
  {
    hide Sort;
    LatestIsLast(history);
    var runs := Sort(ByStart, history);
    if runs != [] {
      assert runs[|runs| - 1] in runs;
    }
  }

  /** Until the instant a plan names, or ever if it names none, the same history collects nothing. */
  lemma NextEligibleIsNotEarly(s: Schedule, history: seq<ScheduleRun>, at: Instant, later: Instant)
    requires Declared(s) && at <= later
    requires match PlanCapture(s, history, at).value.nextEligibleAt case Some(t) => later < t case None => true
    ensures !PlanCapture(s, history, later).value.collects
  {
    hide Sort;
    LatestIsLast(history);
    CollectsExactly(s, history, later);
    var runs := Sort(ByStart, history);
    if runs != [] {
      assert runs[|runs| - 1] in runs;
    }
  }

  /* ---- Run identifiers ---- */

  function RunId(s: Schedule, run: nat): string { s.id + "-" + Decimal(run) }

  /** A run identifier names one run of one schedule. */
  lemma RunIdsAreDistinct(s: Schedule, m: nat, t: Schedule, n: nat)
    requires RunId(s, m) == RunId(t, n)
    ensures s.id == t.id && m == n
  {
    var id := RunId(s, m);
    var a, b := Decimal(m), Decimal(n);
    DigitsEnd(s.id, a);
    DigitsEnd(t.id, b);
    assert id[|id| - |a|..] == a && id[|id| - |b|..] == b;
    assert id[..|id| - |a| - 1] == s.id && id[..|id| - |b| - 1] == t.id;
    DecimalIsInjective(m, n);
  }

  /**
   A run can be addressed in the capture store exactly when its identifier, suffix and all, fits eighty characters.
   */
  lemma RunIdFits(s: Schedule, run: nat)
    requires Declared(s)
    ensures Identifier(RunId(s, run)) <==> |s.id| + 1 + |Decimal(run)| <= 80
  {
    var id := RunId(s, run);
    forall c | c in id ensures IdentifierChar(c) {
      assert c in s.id || c == '-' || c in Decimal(run);
    }
  }

  /* ---- Reading the history ---- */

  function KeyFor(s: Schedule, run: nat): Store.Key { Store.Key(Store.Statutory, RunId(s, run)) }

  function StateOf(i: Store.Inspection): RunState
    requires i.Present?
  {
    if i.receipt.None? then Incomplete
    else match i.receipt.value.result.outcome
         case Captured => Captured
         case Quarantined => Quarantined
         case Failed => Failed
  }

  function RunOf(i: Store.Inspection): ScheduleRun
    requires i.Present?
  {
    ScheduleRun(i.intent.startedAt, StateOf(i))
  }

  /** These are the first runs on disk, with nothing skipped. */
  ghost predicate IsHistory(w: Store.World, f: Store.Files, s: Schedule, runs: seq<ScheduleRun>) {
    |runs| <= s.maxRuns
    && forall j :: 0 <= j < |runs| ==> IsRun(runs[j], Store.Inspect(w, f, KeyFor(s, j + 1)))
  }

  /** A run began when its intent did, and ended as its receipt says, if it has one. */
  predicate IsRun(run: ScheduleRun, seen: Store.Inspection) {
    && seen.Present? && run.startedAt == seen.intent.startedAt
    && match seen.receipt
       case None => run.state == Incomplete
       case Some(r) =>
         && (run.state == Captured <==> r.result.outcome == Store.Captured)
         && (run.state == Quarantined <==> r.result.outcome == Store.Quarantined)
         && (run.state == Failed <==> r.result.outcome == Store.Failed)
         && run.state != Incomplete
  }

  /** Asks for run 1, 2, and so on until one is absent; None when a stored run cannot be read back. */
  method ReadRunHistory(w: Store.World, f: Store.Files, s: Schedule) returns (r: Option<seq<ScheduleRun>>)
    requires Declared(s)
    ensures r.Some? ==> IsHistory(w, f, s, r.value)
    ensures r.Some? && |r.value| < s.maxRuns ==> Store.Inspect(w, f, KeyFor(s, |r.value| + 1)) == Store.Absent
    ensures r.None? ==> exists run :: 1 <= run <= s.maxRuns && Store.Inspect(w, f, KeyFor(s, run)) == Store.Invalid
  {
    hide Store.Inspect, RunId;
    var runs: seq<ScheduleRun> := [];
    var run: nat := 1;
    while run <= s.maxRuns
      invariant run == |runs| + 1 && IsHistory(w, f, s, runs)
    {
      var seen := Store.Inspect(w, f, KeyFor(s, run));
      if seen.Invalid? { return None; }
      if seen.Absent? { break; }
      ghost var before := runs;
      runs := runs + [RunOf(seen)];
      assert forall j :: 0 <= j < |before| ==> runs[j] == before[j];
      run := run + 1;
    }
    return Some(runs);
  }
}
