/**
 Invocations of a schedule (src/acquisition/statutoryRun.ts) that read the history, ask the planner and capture
 at most once, overlapping one another and interleaved with the capture store.
 */
module ScheduledRuns {
  import opened Basics
  import Store = CaptureStore
  import Invariants = CaptureInvariants
  import Promises = CapturePromises
  import opened Decimals
  import opened Ordering
  import opened CaptureSchedule

  /* ---- Overlapping invocations ---- */

  /** An invocation reads the clock once, then the runs one by one, then asks the planner. */
  datatype Invocation =
    | Reading(at: Instant, history: seq<ScheduleRun>)
    | Deciding(at: Instant, history: seq<ScheduleRun>)
    | Finished

  /** Which run a capture process was launched for, and the instant of the plan that said to. */
  datatype Mandate = Mandate(run: nat, at: Instant)

  datatype State = State(
    store: Store.State, clock: Instant, invocations: map<nat, Invocation>, mandates: map<nat, Mandate>)

  function Start(clock: Instant): State { State(Store.START, clock, map[], map[]) }

  datatype Event =
    | Tick(clock: Instant)
    | Invoke(v: nat)
    | ReadNext(v: nat)
    | Decide(v: nat, pid: nat)
    | StoreStep(event: Store.Event)

  /** Anything else may use the store, but not under this schedule's run identifiers; and everyone reads one clock. */
  ghost predicate Admitted(sch: Schedule, s: State, e: Store.Event) {
    match e
    case Launch(_, adapter, request) => adapter == Store.Statutory ==> forall run: nat :: request.id != RunId(sch, run)
    case Step(_, x) => x.start == s.clock
    case Crash(_) => true
  }

  ghost function Next(w: Store.World, sch: Schedule, scope: int, s: State, e: Event): State {
    match e
    case Tick(t) => if t >= s.clock then s.(clock := t) else s
    case Invoke(v) => if v in s.invocations then s else s.(invocations := s.invocations[v := Reading(s.clock, [])])
    case ReadNext(v) =>
      if v !in s.invocations || !s.invocations[v].Reading? then s
      else s.(invocations := s.invocations[v := AfterRead(w, sch, s.store.files, s.invocations[v])])
    case Decide(v, pid) =>
      if v !in s.invocations || !s.invocations[v].Deciding? || pid in s.store.processes then s
      else
        var i := s.invocations[v];
        var plan := PlanCapture(sch, i.history, i.at);
        var done := s.(invocations := s.invocations[v := Finished]);
        if plan.None? || !plan.value.collects then done
        else
          var run := |i.history| + 1;
          done.(store := Store.Next(w, s.store,
            Store.Launch(pid, Store.Statutory, Store.Request(RunId(sch, run), scope))),
                mandates := s.mandates[pid := Mandate(run, i.at)])
    case StoreStep(e) => if Admitted(sch, s, e) then s.(store := Store.Next(w, s.store, e)) else s
  }

  function AfterRead(w: Store.World, sch: Schedule, f: Store.Files, i: Invocation): Invocation
    requires i.Reading?
  {
    if |i.history| >= sch.maxRuns then Deciding(i.at, i.history)
    else
      var seen := Store.Inspect(w, f, KeyFor(sch, |i.history| + 1));
      if seen.Invalid? then Finished
      else if seen.Absent? then Deciding(i.at, i.history)
      else Reading(i.at, i.history + [RunOf(seen)])
  }

  ghost function Run(w: Store.World, sch: Schedule, scope: int, clock: Instant, events: seq<Event>): State {
    if events == [] then Start(clock)
    else Next(w, sch, scope, Run(w, sch, scope, clock, events[..|events| - 1]), events[|events| - 1])
  }

  /* ---- What holds throughout ---- */

  predicate Began(f: Store.Files, sch: Schedule, run: nat) { KeyFor(sch, run) in f.intents }

  predicate Ended(f: Store.Files, sch: Schedule, run: nat) { KeyFor(sch, run) in f.receipts }

  function StartOf(f: Store.Files, sch: Schedule, run: nat): Instant
    requires Began(f, sch, run)
  {
    f.intents[KeyFor(sch, run)].startedAt
  }

  /** Every run before this one is on disk with a receipt, and began at least an interval before the instant. */
  ghost predicate Clear(f: Store.Files, sch: Schedule, run: nat, at: Instant) {
    forall j: nat :: 1 <= j < run ==>
      Began(f, sch, j) && Ended(f, sch, j) && StartOf(f, sch, j) + sch.minimumIntervalHours * 3_600_000 <= at
  }

  /** A mandate the planner gave. */
  ghost predicate MandateOk(f: Store.Files, sch: Schedule, m: Mandate, clock: Instant) {
    1 <= m.run <= sch.maxRuns && sch.notBefore <= m.at < sch.notAfter && m.at <= clock && Clear(f, sch, m.run, m.at)
  }

  /** A run on disk began under a mandate for it, at or after the instant of the plan. */
  ghost predicate RunOk(s: State, sch: Schedule, run: nat) {
    Began(s.store.files, sch, run) ==>
      var i := s.store.files.intents[KeyFor(sch, run)];
      i.nonce in s.mandates && s.mandates[i.nonce].run == run && s.mandates[i.nonce].at <= i.startedAt
  }

  ghost predicate ProcessMandated(s: State, sch: Schedule, pid: nat, run: nat) {
    pid in s.store.processes
    && s.store.processes[pid].adapter == Store.Statutory && s.store.processes[pid].request.id == RunId(sch, run) ==>
      pid in s.mandates && s.mandates[pid].run == run
  }

  /** What an invocation has read is on disk. */
  ghost predicate HistoryOk(f: Store.Files, sch: Schedule, history: seq<ScheduleRun>) {
    |history| <= sch.maxRuns
    && forall j :: 0 <= j < |history| ==> ReadOk(f, sch, j + 1, history[j])
  }

  predicate ReadOk(f: Store.Files, sch: Schedule, run: nat, r: ScheduleRun) {
    Began(f, sch, run) && r.startedAt == StartOf(f, sch, run) && (r.state != Incomplete ==> Ended(f, sch, run))
  }

  ghost predicate InvocationOk(f: Store.Files, sch: Schedule, i: Invocation, clock: Instant) {
    !i.Finished? ==> i.at <= clock && HistoryOk(f, sch, i.history)
  }

  ghost predicate Inv(s: State, sch: Schedule) {
    && (forall run: nat :: RunOk(s, sch, run))
    && (forall pid | pid in s.mandates ::
          pid in s.store.processes && MandateOk(s.store.files, sch, s.mandates[pid], s.clock))
    && (forall pid: nat, run: nat :: ProcessMandated(s, sch, pid, run))
    && (forall v | v in s.invocations :: InvocationOk(s.store.files, sch, s.invocations[v], s.clock))
  }

  lemma ClearStays(f: Store.Files, g: Store.Files, sch: Schedule, run: nat, at: Instant)
    requires Invariants.Grows(f, g) && Clear(f, sch, run, at)
    ensures Clear(g, sch, run, at)
  {
    hide RunId;
    forall j: nat | 1 <= j < run
      ensures Began(g, sch, j) && Ended(g, sch, j)
      ensures StartOf(g, sch, j) + sch.minimumIntervalHours * 3_600_000 <= at
    {
      assert Began(f, sch, j) && Ended(f, sch, j);
    }
  }

  lemma ReadStays(f: Store.Files, g: Store.Files, sch: Schedule, history: seq<ScheduleRun>)
    requires Invariants.Grows(f, g) && HistoryOk(f, sch, history)
    ensures HistoryOk(g, sch, history)
  {
    hide RunId;
    forall j | 0 <= j < |history| ensures ReadOk(g, sch, j + 1, history[j]) {
      assert ReadOk(f, sch, j + 1, history[j]);
    }
  }

  /** What a step of the store can add to the intents: the one of the process that moved, begun at its clock reading. */
  lemma OnlyNewIntent(w: Store.World, s: Store.State, e: Store.Event)
    ensures var t := Store.Next(w, s, e);
      && Invariants.Grows(s.files, t.files)
      && (forall k | k in t.files.intents && k !in s.files.intents ::
            e.Step? && e.pid in s.processes
            && k == Store.Key(s.processes[e.pid].adapter, s.processes[e.pid].request.id)
            && t.files.intents[k].nonce == e.pid && t.files.intents[k].startedAt == e.script.start)
      && (forall pid | pid in t.processes && pid in s.processes ::
            t.processes[pid].adapter == s.processes[pid].adapter
              && t.processes[pid].request == s.processes[pid].request)
      && (forall pid | pid in t.processes && pid !in s.processes ::
            e == Store.Launch(pid, t.processes[pid].adapter, t.processes[pid].request))
  {
    hide Store.Inspect, Store.InspectIntake, Store.Parsed, Store.PolicyAllows, Store.Usable, Invariants.Grows,
      Store.Claim;
    Invariants.StepGrows(w, s, e);
    if e.Step? && e.pid in s.processes { MoveOpens(w, s.files, s.processes[e.pid], e.pid, e.script); }
    hide Store.Move;
  }

  lemma MoveOpens(w: Store.World, f: Store.Files, p: Store.Process, nonce: nat, x: Store.Script)
    ensures var g := Store.Move(w, f, p, nonce, x).files;
      forall k | k in g.intents && k !in f.intents ::
        k == Store.Key(p.adapter, p.request.id) && g.intents[k].nonce == nonce && g.intents[k].startedAt == x.start
  {
    hide Store.Inspect, Store.InspectIntake, Store.Parsed, Store.PolicyAllows, Store.Usable;
  }

  lemma PresentIsOnDisk(w: Store.World, f: Store.Files, key: Store.Key)
    requires Store.Inspect(w, f, key).Present?
    ensures var seen := Store.Inspect(w, f, key);
      key in f.intents && f.intents[key] == seen.intent && (seen.receipt.Some? ==> key in f.receipts)
  {
    hide Store.ReceiptMatches, Store.EvidenceMatches, Store.InspectIntake, Store.PolicyAllows;
  }

  /** The planner's yes is a mandate for the run after the history. */
  lemma CollectingIsMandated(f: Store.Files, sch: Schedule, history: seq<ScheduleRun>, at: Instant, clock: Instant)
    requires HistoryOk(f, sch, history) && at <= clock
    requires var plan := PlanCapture(sch, history, at); plan.Some? && plan.value.collects
    ensures MandateOk(f, sch, Mandate(|history| + 1, at), clock)
  {
    hide RunId, Declared, PlanCapture;
    assert Declared(sch) by { OnlyDeclaredPlans(sch, history, at); }
    CollectsExactly(sch, history, at);
    forall j: nat | 1 <= j < |history| + 1
      ensures Began(f, sch, j) && Ended(f, sch, j)
      ensures StartOf(f, sch, j) + sch.minimumIntervalHours * 3_600_000 <= at
    {
      assert ReadOk(f, sch, j, history[j - 1]);
      assert history[j - 1] in history;
    }
  }

  lemma OnlyDeclaredPlans(sch: Schedule, history: seq<ScheduleRun>, at: Instant)
    requires PlanCapture(sch, history, at).Some?
    ensures Declared(sch)
  {
  }

  function Launched(w: Store.World, sch: Schedule, scope: int, s: State, pid: nat, m: Mandate): State {
    s.(store := Store.Next(w, s.store, Store.Launch(pid, Store.Statutory, Store.Request(RunId(sch, m.run), scope))),
       mandates := s.mandates[pid := m])
  }

  lemma LaunchKeeps(w: Store.World, sch: Schedule, scope: int, s: State, pid: nat, m: Mandate)
    requires Inv(s, sch) && pid !in s.store.processes && MandateOk(s.store.files, sch, m, s.clock)
    ensures Inv(Launched(w, sch, scope, s, pid, m), sch)
  {
    var t := Launched(w, sch, scope, s, pid, m);
    hide MandateOk, InvocationOk, RunId;
    forall q: nat, run: nat ensures ProcessMandated(t, sch, q, run) {
      assert ProcessMandated(s, sch, q, run);
      if RunId(sch, run) == RunId(sch, m.run) { RunIdsAreDistinct(sch, run, sch, m.run); }
    }
    forall run: nat ensures RunOk(t, sch, run) { assert RunOk(s, sch, run); }
    hide ProcessMandated, RunOk;
  }

  lemma DecideKeeps(w: Store.World, sch: Schedule, scope: int, s: State, v: nat, pid: nat)
    requires Inv(s, sch)
    ensures Inv(Next(w, sch, scope, s, Decide(v, pid)), sch)
  {
    if v in s.invocations && s.invocations[v].Deciding? && pid !in s.store.processes {
      var i := s.invocations[v];
      var plan := PlanCapture(sch, i.history, i.at);
      var done := s.(invocations := s.invocations[v := Finished]);
      assert InvocationOk(s.store.files, sch, i, s.clock) && InvocationOk(s.store.files, sch, Finished, s.clock);
      if plan.Some? && plan.value.collects { CollectingIsMandated(s.store.files, sch, i.history, i.at, s.clock); }
      hide RunId, PlanCapture, MandateOk, InvocationOk, Store.Next, HistoryOk;
      Quietly(s, done, sch);
      hide Inv;
      if plan.Some? && plan.value.collects {
        LaunchKeeps(w, sch, scope, done, pid, Mandate(|i.history| + 1, i.at));
      }
    }
  }

  /** Only the invocations changed. */
  lemma Quietly(s: State, t: State, sch: Schedule)
    requires Inv(s, sch) && t.store == s.store && t.mandates == s.mandates && t.clock == s.clock
    requires forall v | v in t.invocations :: InvocationOk(t.store.files, sch, t.invocations[v], t.clock)
    ensures Inv(t, sch)
  {
    hide RunId, MandateOk, InvocationOk;
    forall run: nat ensures RunOk(t, sch, run) { assert RunOk(s, sch, run); }
    forall q: nat, run: nat ensures ProcessMandated(t, sch, q, run) { assert ProcessMandated(s, sch, q, run); }
  }

  lemma ReadKeeps(w: Store.World, sch: Schedule, scope: int, s: State, v: nat)
    requires Inv(s, sch) && Declared(sch)
    ensures Inv(Next(w, sch, scope, s, ReadNext(v)), sch)
  {
    if v in s.invocations && s.invocations[v].Reading? {
      var i := s.invocations[v];
      var f := s.store.files;
      assert InvocationOk(f, sch, i, s.clock);
      assert InvocationOk(f, sch, AfterRead(w, sch, f, i), s.clock) by {
        hide Store.Inspect, RunId;
        var key := KeyFor(sch, |i.history| + 1);
        if |i.history| < sch.maxRuns && Store.Inspect(w, f, key).Present? {
          PresentIsOnDisk(w, f, key);
          var more := i.history + [RunOf(Store.Inspect(w, f, key))];
          forall j | 0 <= j < |more| ensures ReadOk(f, sch, j + 1, more[j]) {
            if j < |i.history| { assert ReadOk(f, sch, j + 1, i.history[j]); }
          }
        }
      }
      hide InvocationOk, AfterRead;
      Quietly(s, Next(w, sch, scope, s, ReadNext(v)), sch);
    }
  }

  lemma StoreKeeps(w: Store.World, sch: Schedule, s: State, e: Store.Event)
    requires Inv(s, sch) && Admitted(sch, s, e)
    ensures Inv(s.(store := Store.Next(w, s.store, e)), sch)
  {
    hide RunId, Store.Next, Invariants.Grows, Clear, HistoryOk;
    var t := s.(store := Store.Next(w, s.store, e));
    var f, g := s.store.files, t.store.files;
    OnlyNewIntent(w, s.store, e);
    forall pid | pid in s.mandates ensures MandateOk(g, sch, s.mandates[pid], s.clock) {
      assert MandateOk(f, sch, s.mandates[pid], s.clock);
      ClearStays(f, g, sch, s.mandates[pid].run, s.mandates[pid].at);
    }
    forall v | v in s.invocations ensures InvocationOk(g, sch, s.invocations[v], s.clock) {
      assert InvocationOk(f, sch, s.invocations[v], s.clock);
      if !s.invocations[v].Finished? { ReadStays(f, g, sch, s.invocations[v].history); }
    }
    forall pid: nat, run: nat ensures ProcessMandated(t, sch, pid, run) {
      assert ProcessMandated(s, sch, pid, run);
    }
    assert forall pid | pid in s.mandates :: pid in t.store.processes by { ProcessesStay(w, s.store, e); }
    forall run: nat ensures RunOk(t, sch, run) {
      assert RunOk(s, sch, run);
      IntentsStay(f, g);
      if Began(g, sch, run) && !Began(f, sch, run) { assert ProcessMandated(s, sch, e.pid, run); }
    }
    hide MandateOk, InvocationOk, ProcessMandated, RunOk;
  }

  lemma IntentsStay(f: Store.Files, g: Store.Files)
    requires Invariants.Grows(f, g)
    ensures forall k | k in f.intents :: k in g.intents && g.intents[k] == f.intents[k]
  {
  }

  lemma ProcessesStay(w: Store.World, s: Store.State, e: Store.Event)
    ensures forall pid | pid in s.processes :: pid in Store.Next(w, s, e).processes
  {
    hide Store.Move;
  }

  lemma {:induction false} EveryRunKeeps(w: Store.World, sch: Schedule, scope: int, clock: Instant, events: seq<Event>)
    requires Declared(sch)
    ensures Inv(Run(w, sch, scope, clock, events), sch)
  {
    hide Declared, Inv;
    if events == [] {
      StartOk(sch, clock);
    } else {
      var before, e := events[..|events| - 1], events[|events| - 1];
      EveryRunKeeps(w, sch, scope, clock, before);
      var s := Run(w, sch, scope, clock, before);
      match e
      case Tick(t) => if t >= s.clock { TickKeeps(s, sch, t); }
      case Invoke(v) => InvokeKeeps(w, sch, scope, s, v);
      case ReadNext(v) => ReadKeeps(w, sch, scope, s, v);
      case Decide(v, pid) => DecideKeeps(w, sch, scope, s, v, pid);
      case StoreStep(d) => if Admitted(sch, s, d) { StoreKeeps(w, sch, s, d); }
    }
  }

  lemma StartOk(sch: Schedule, clock: Instant)
    ensures Inv(Start(clock), sch)
  {
    hide RunId;
  }

  lemma TickKeeps(s: State, sch: Schedule, clock: Instant)
    requires Inv(s, sch) && clock >= s.clock
    ensures Inv(s.(clock := clock), sch)
  {
    hide RunId, Clear, HistoryOk;
    var t := s.(clock := clock);
    forall run: nat ensures RunOk(t, sch, run) { assert RunOk(s, sch, run); }
    forall q: nat, run: nat ensures ProcessMandated(t, sch, q, run) { assert ProcessMandated(s, sch, q, run); }
  }

  lemma InvokeKeeps(w: Store.World, sch: Schedule, scope: int, s: State, v: nat)
    requires Inv(s, sch) && Declared(sch)
    ensures Inv(Next(w, sch, scope, s, Invoke(v)), sch)
  {
    var t := Next(w, sch, scope, s, Invoke(v));
    assert v !in s.invocations ==> InvocationOk(t.store.files, sch, t.invocations[v], t.clock);
    hide InvocationOk;
    Quietly(s, t, sch);
  }

  /* ---- The promises ---- */

  /** However invocations overlap, the runs on disk are 1 to k with k within the budget. */
  lemma RunsAreContiguous(w: Store.World, sch: Schedule, scope: int, clock: Instant, events: seq<Event>)
      returns (k: nat)
    requires Declared(sch)
    ensures k <= sch.maxRuns
    ensures var f := Run(w, sch, scope, clock, events).store.files;
      forall run: nat :: Began(f, sch, run) <==> 1 <= run <= k
  {
    hide RunId, Run;
    EveryRunKeeps(w, sch, scope, clock, events);
    var s := Run(w, sch, scope, clock, events);
    var f := s.store.files;
    k := sch.maxRuns;
    while k > 0 && !Began(f, sch, k)
      invariant k <= sch.maxRuns
      invariant forall run: nat :: k < run <= sch.maxRuns ==> !Began(f, sch, run)
    {
      k := k - 1;
    }
    forall run: nat ensures Began(f, sch, run) <==> 1 <= run <= k {
      RunFacts(s, sch, run);
      if k > 0 { RunFacts(s, sch, k); }
    }
  }

  lemma RunFacts(s: State, sch: Schedule, run: nat)
    requires Inv(s, sch)
    ensures Began(s.store.files, sch, run) ==>
      && 1 <= run <= sch.maxRuns
      && Clear(s.store.files, sch, run, StartOf(s.store.files, sch, run))
  {
    hide RunId;
    if Began(s.store.files, sch, run) {
      assert RunOk(s, sch, run);
      var m := s.mandates[s.store.files.intents[KeyFor(sch, run)].nonce];
      assert MandateOk(s.store.files, sch, m, s.clock);
    }
  }

  /**
   A run begins only when every earlier run has its receipt, each at least the declared interval before it;
   and the plan that allowed it was made inside the half-open window, no later than it began.
   */
  lemma RunsAreSpaced(w: Store.World, sch: Schedule, scope: int, clock: Instant, events: seq<Event>, run: nat)
    requires Declared(sch)
    ensures var s := Run(w, sch, scope, clock, events);
      Began(s.store.files, sch, run) ==>
        var i := s.store.files.intents[KeyFor(sch, run)];
        && Clear(s.store.files, sch, run, i.startedAt)
        && i.nonce in s.mandates && s.mandates[i.nonce].run == run
        && sch.notBefore <= s.mandates[i.nonce].at < sch.notAfter && s.mandates[i.nonce].at <= i.startedAt
  {
    hide RunId, Run;
    EveryRunKeeps(w, sch, scope, clock, events);
    var s := Run(w, sch, scope, clock, events);
    RunFacts(s, sch, run);
    assert RunOk(s, sch, run);
  }

  /**
   The instant a run began is the clock at the step that opened it, so it lies in the window exactly when that
   clock had not reached its end.
   */
  lemma WindowExactly(w: Store.World, sch: Schedule, scope: int, clock: Instant, events: seq<Event>, run: nat)
    returns (n: nat)
    requires Declared(sch) && Began(Run(w, sch, scope, clock, events).store.files, sch, run)
    ensures n < |events|
    ensures var before, after := Run(w, sch, scope, clock, events[..n]), Run(w, sch, scope, clock, events[..n + 1]);
      && !Began(before.store.files, sch, run) && Began(after.store.files, sch, run)
      && var began := StartOf(Run(w, sch, scope, clock, events).store.files, sch, run);
         began == before.clock && (sch.notBefore <= began < sch.notAfter <==> before.clock < sch.notAfter)
  {
    n := Opening(w, sch, scope, clock, events, run);
    hide Run, Began, StartOf, Declared;
    RunsAreSpaced(w, sch, scope, clock, events, run);
    StartsInOrder(w, sch, scope, clock, events, run);
  }

  lemma StartsInOrder(w: Store.World, sch: Schedule, scope: int, clock: Instant, events: seq<Event>, run: nat)
    requires Declared(sch) && Began(Run(w, sch, scope, clock, events).store.files, sch, run)
    ensures sch.notBefore <= StartOf(Run(w, sch, scope, clock, events).store.files, sch, run)
  {
    hide Run, Declared;
    RunsAreSpaced(w, sch, scope, clock, events, run);
  }

  /** The step that opened a run, and the clock it read. */
  lemma {:induction false} Opening(w: Store.World, sch: Schedule, scope: int, clock: Instant, events: seq<Event>,
      run: nat)
    returns (n: nat)
    requires Began(Run(w, sch, scope, clock, events).store.files, sch, run)
    ensures n < |events|
    ensures !Began(Run(w, sch, scope, clock, events[..n]).store.files, sch, run)
    ensures Began(Run(w, sch, scope, clock, events[..n + 1]).store.files, sch, run)
    ensures StartOf(Run(w, sch, scope, clock, events).store.files, sch, run)
      == Run(w, sch, scope, clock, events[..n]).clock
  {
    hide RunId;
    if events != [] {
      var before, e := events[..|events| - 1], events[|events| - 1];
      var s := Run(w, sch, scope, clock, before);
      OpenedBy(w, sch, scope, s, e, run);
      if Began(s.store.files, sch, run) {
        n := Opening(w, sch, scope, clock, before, run);
        assert before[..n] == events[..n] && before[..n + 1] == events[..n + 1];
      } else {
        n := |events| - 1;
        assert events[..n + 1] == events;
      }
    }
  }

  lemma OpenedBy(w: Store.World, sch: Schedule, scope: int, s: State, e: Event, run: nat)
    ensures var f, g := s.store.files, Next(w, sch, scope, s, e).store.files;
      Began(g, sch, run) ==> StartOf(g, sch, run) == if Began(f, sch, run) then StartOf(f, sch, run) else s.clock
  {
    hide RunId, PlanCapture, Store.Move, Store.History, Invariants.Grows;
    match e
    case StoreStep(d) =>
      if Admitted(sch, s, d) {
        hide Store.Next;
        OnlyNewIntent(w, s.store, d);
        IntentsStay(s.store.files, Store.Next(w, s.store, d).files);
      }
    case _ =>
  }

  /** Only runs whose identifiers fit the capture store begin: a longer schedule identifier ends its schedule early. */
  lemma OnlyFittingRunsBegin(w: Store.World, sch: Schedule, scope: int, clock: Instant, events: seq<Event>, run: nat)
    requires Declared(sch) && Began(Run(w, sch, scope, clock, events).store.files, sch, run)
    ensures |sch.id| + 1 + |Decimal(run)| <= 80
  {
    hide RunId, Run;
    StaysInShape(w, sch, scope, clock, events);
    RunIdFits(sch, run);
  }

  lemma {:induction false} StaysInShape(w: Store.World, sch: Schedule, scope: int, clock: Instant, events: seq<Event>)
    ensures Promises.InShape(Run(w, sch, scope, clock, events).store)
  {
    hide RunId, PlanCapture, Store.Next, Promises.InShape;
    if events == [] {
      assert Promises.InShape(Store.START) by { NothingInShape(); }
    } else {
      StaysInShape(w, sch, scope, clock, events[..|events| - 1]);
      var s := Run(w, sch, scope, clock, events[..|events| - 1]);
      match events[|events| - 1]
      case StoreStep(d) => Promises.NextInShape(w, s.store, d);
      case Decide(v, pid) =>
        if v in s.invocations && s.invocations[v].Deciding? {
          Promises.NextInShape(w, s.store,
            Store.Launch(pid, Store.Statutory, Store.Request(RunId(sch, |s.invocations[v].history| + 1), scope)));
        }
      case _ =>
    }
  }

  lemma NothingInShape()
    ensures Promises.InShape(Store.START)
  {
  }

  /* ---- A run that begins after its window ---- */

  function Reads(clock: Instant): Store.Script { Store.Script(true, clock, clock, clock, Store.Refused(false)) }

  /** Planned inside the window, opened by a process that went on only later. */
  function LateEvents(late: Instant): seq<Event> {
    [Invoke(0), ReadNext(0), Decide(0, 0), Tick(late), StoreStep(Store.Step(0, Reads(late))),
      StoreStep(Store.Step(0, Reads(late)))]
  }

  /** While its source policy is in force, a run may begin at any instant after its window. */
  lemma RunMayBeginLate(w: Store.World, sch: Schedule, scope: int, late: Instant)
    requires Declared(sch) && sch.enabled && Identifier(RunId(sch, 1)) && late >= sch.notAfter
    requires Store.PolicyAllows(w.registration(Store.Statutory, Store.Request(RunId(sch, 1), scope)), late)
    ensures var f := Run(w, sch, scope, sch.notBefore, LateEvents(late)).store.files;
      Began(f, sch, 1) && StartOf(f, sch, 1) == late && late >= sch.notAfter
  {
    hide RunId, Identifier, Next, Began, StartOf, Store.PolicyAllows;
    var events := LateEvents(late);
    assert Run(w, sch, scope, sch.notBefore, events[..0]) == Start(sch.notBefore);
    StepOfRun(w, sch, scope, sch.notBefore, events, 0);
    StepOfRun(w, sch, scope, sch.notBefore, events, 1);
    StepOfRun(w, sch, scope, sch.notBefore, events, 2);
    StepOfRun(w, sch, scope, sch.notBefore, events, 3);
    StepOfRun(w, sch, scope, sch.notBefore, events, 4);
    StepOfRun(w, sch, scope, sch.notBefore, events, 5);
    assert events[..6] == events;
    hide Run;
    var s := Decided(w, sch, scope);
    OpenedLate(w, sch, scope, s, late);
  }

  function Requested(sch: Schedule, scope: int): Store.Request { Store.Request(RunId(sch, 1), scope) }

  /** An invocation at the opening of the window, as far as launching the first run. */
  lemma Decided(w: Store.World, sch: Schedule, scope: int) returns (s: State)
    requires Declared(sch) && sch.enabled && Identifier(RunId(sch, 1))
    ensures var s1 := Next(w, sch, scope, Start(sch.notBefore), Invoke(0));
      s == Next(w, sch, scope, Next(w, sch, scope, s1, ReadNext(0)), Decide(0, 0))
    ensures s.store == Store.State(Store.EMPTY,
      map[0 := Store.Process(Store.Statutory, Requested(sch, scope), Store.Begin)], [])
    ensures s.clock == sch.notBefore
  {
    hide RunId, Identifier;
    var s1 := Next(w, sch, scope, Start(sch.notBefore), Invoke(0));
    assert s1 == State(Store.START, sch.notBefore, map[0 := Reading(sch.notBefore, [])], map[]);
    var s2 := Next(w, sch, scope, s1, ReadNext(0));
    assert Store.Inspect(w, Store.EMPTY, KeyFor(sch, 1)) == Store.Absent;
    assert s2 == State(Store.START, sch.notBefore, map[0 := Deciding(sch.notBefore, [])], map[]);
    CollectsExactly(sch, [], sch.notBefore);
    assert PlanCapture(sch, [], sch.notBefore).value.collects;
    hide PlanCapture, Store.Inspect;
    s := Next(w, sch, scope, s2, Decide(0, 0));
  }

  /** The launched process goes on only once the clock has moved. */
  lemma OpenedLate(w: Store.World, sch: Schedule, scope: int, s: State, late: Instant)
    requires Identifier(RunId(sch, 1))
      && Store.PolicyAllows(w.registration(Store.Statutory, Requested(sch, scope)), late)
    requires s.store == Store.State(Store.EMPTY,
      map[0 := Store.Process(Store.Statutory, Requested(sch, scope), Store.Begin)], [])
    requires s.clock <= late
    ensures var s4 := Next(w, sch, scope, s, Tick(late));
      var s5 := Next(w, sch, scope, s4, StoreStep(Store.Step(0, Reads(late))));
      var f := Next(w, sch, scope, s5, StoreStep(Store.Step(0, Reads(late)))).store.files;
      Began(f, sch, 1) && StartOf(f, sch, 1) == late
  {
    hide RunId, Identifier, Store.PolicyAllows;
    var request := Requested(sch, scope);
    var s4 := Next(w, sch, scope, s, Tick(late));
    assert Store.Inspect(w, Store.EMPTY, KeyFor(sch, 1)) == Store.Absent;
    var s5 := Next(w, sch, scope, s4, StoreStep(Store.Step(0, Reads(late))));
    assert s5.store == Store.State(Store.EMPTY, map[0 := Store.Process(Store.Statutory, request, Store.Opening)], [])
      && s5.clock == late;
    hide Store.Inspect;
    var i := Store.Intent(Store.Statutory, request, late, 0, w.registration(Store.Statutory, request));
    assert Next(w, sch, scope, s5, StoreStep(Store.Step(0, Reads(late)))).store.files.intents
      == map[KeyFor(sch, 1) := i];
  }

  lemma StepOfRun(w: Store.World, sch: Schedule, scope: int, clock: Instant, events: seq<Event>, n: nat)
    requires n < |events|
    ensures Run(w, sch, scope, clock, events[..n + 1])
      == Next(w, sch, scope, Run(w, sch, scope, clock, events[..n]), events[n])
  {
    hide Next;
    assert events[..n + 1][..n] == events[..n];
  }

  /** A statutory source whose policy outlasts the schedule's window. */
  function LastingWorld(): Store.World {
    Store.World((a, r) =>
        Store.Registration(if a == Store.Census then "census" else "filing", 0, 1_000_000_000, true, true),
                (a, r, b, m) => None, (a, m) => true, (a, r) => 1000)
  }

  /** One run, in a window of an hour that opens at zero. */
  const HOURLY := Schedule("S", 1, 0, 3_600_000, 1, true)

  /** Such a run: decided at zero, begun two hours later, an hour after its window closed. */
  lemma LateRunExists()
    ensures Declared(HOURLY) && Store.Separate(LastingWorld())
    ensures var f := Run(LastingWorld(), HOURLY, 0, 0, LateEvents(7_200_000)).store.files;
      Began(f, HOURLY, 1) && StartOf(f, HOURLY, 1) == 7_200_000 && HOURLY.notAfter == 3_600_000
  {
    assert Identifier(HOURLY.id);
    RunIdFits(HOURLY, 1);
    assert |Decimal(1)| == 1;
    RunMayBeginLate(LastingWorld(), HOURLY, 0, 7_200_000);
  }
}
