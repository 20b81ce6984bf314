/**
 What every interleaving of capture processes promises (src/acquisition/store.ts): how often a source is
 contacted, and what reading back accepts.
 */
module CapturePromises {
  import opened Basics
  import opened Ordering
  import opened CaptureStore
  import opened CaptureInvariants

  lemma {:induction false} EveryRunKeeps(w: World, events: seq<Event>)
    requires Separate(w)
    ensures Inv(w, Run(w, events))
  {
    hide FilesOk, ContactsOk, ProcessOk, Move;
    if events == [] {
      StartOk(w);
    } else {
      var before, e := events[..|events| - 1], events[|events| - 1];
      EveryRunKeeps(w, before);
      var s := Run(w, before);
      match e
      case Step(pid, x) => if pid in s.processes { StepKeeps(w, s, pid, x); }
      case Crash(pid) => if pid in s.processes { Placed(w, s, Next(w, s, e), pid); }
      case Launch(pid, adapter, request) => if pid !in s.processes { Placed(w, s, Next(w, s, e), pid); }
    }
  }

  lemma StartOk(w: World)
    ensures Inv(w, START)
  {
  }

  lemma Placed(w: World, s: State, t: State, pid: nat)
    requires Inv(w, s) && t.files == s.files && t.contacts == s.contacts && pid in t.processes
    requires t.processes == s.processes[pid := t.processes[pid]] && !HasIntent(t.processes[pid].place)
    ensures Inv(w, t)
  {
    hide FilesOk, ContactsOk;
    NoPlace(w, s.files, s.contacts, t.processes[pid].place);
    hide PlaceOk;
  }

  /**
   History is create-only: what was on disk after part of a run is there, unchanged, ever after. A spent slot is
   never reclaimed.
   */
  lemma {:induction false} HistoryIsKept(w: World, events: seq<Event>, n: nat)
    requires n <= |events|
    ensures Grows(Run(w, events[..n]).files, Run(w, events).files)
  {
    hide Grows, Next;
    if n == |events| {
      assert events[..n] == events;
      GrowsItself(Run(w, events).files);
    } else {
      var before := events[..|events| - 1];
      assert before[..n] == events[..n];
      HistoryIsKept(w, before, n);
      StepGrows(w, Run(w, before), events[|events| - 1]);
      GrowsThrough(Run(w, events[..n]).files, Run(w, before).files, Run(w, events).files);
    }
  }

  /** A request identifier is taken to its source at most once, ever. */
  lemma OneContactPerRequest(w: World, events: seq<Event>, i: nat, j: nat)
    requires Separate(w) && i < j < |Run(w, events).contacts|
    ensures KeyOf(Run(w, events).contacts[i]) != KeyOf(Run(w, events).contacts[j])
  {
    hide FilesOk, ProcessOk, BudgetHeld, Run;
    EveryRunKeeps(w, events);
    var s := Run(w, events);
    assert Saved(s.files, s.contacts[i]) && Saved(s.files, s.contacts[j]);
  }

  /** At most one contact of a source for each minute of start. */
  lemma OneContactPerMinute(w: World, events: seq<Event>, i: nat, j: nat)
    requires Separate(w) && i < j < |Run(w, events).contacts|
    ensures var c := Run(w, events).contacts;
      c[i].adapter != c[j].adapter || c[i].startedAt / 60_000 != c[j].startedAt / 60_000
  {
    hide FilesOk, ProcessOk, HoldsDaySlot, Run;
    EveryRunKeeps(w, events);
    var s := Run(w, events);
    var a, b := s.contacts[i], s.contacts[j];
    assert BudgetHeld(s.files, a) && BudgetHeld(s.files, b);
    SameMinute(a.startedAt, b.startedAt);
    assert MinuteClaim(a) == MinuteClaim(b) ==> a == b;
  }

  lemma SameMinute(t: Instant, u: Instant)
    ensures t / MINUTE_MS == u / MINUTE_MS ==> DayOf(t) == DayOf(u) && MinuteOf(t) == MinuteOf(u)
  {
    MinuteSplit(t);
    MinuteSplit(u);
  }

  lemma MinuteSplit(t: Instant)
    ensures t / MINUTE_MS == 1440 * DayOf(t) + MinuteOf(t) && 0 <= MinuteOf(t) < 1440
  {
  }

  function OnDay(contacts: seq<Intent>, a: Adapter, day: int): seq<Intent> {
    if contacts == [] then []
    else (if contacts[0].adapter == a && contacts[0].startedAt / 86_400_000 == day then [contacts[0]] else [])
         + OnDay(contacts[1..], a, day)
  }

  lemma {:induction false} OnDayKeeps(c: seq<Intent>, a: Adapter, day: int)
    requires forall i, j | 0 <= i < j < |c| :: c[i] != c[j]
    ensures var r := OnDay(c, a, day);
      && (forall x | x in r :: x in c && x.adapter == a && x.startedAt / 86_400_000 == day)
      && (forall i, j | 0 <= i < j < |r| :: r[i] != r[j])
  {
    if c != [] {
      assert forall x | x in c[1..] :: x in c;
      OnDayKeeps(c[1..], a, day);
      assert c[0] !in c[1..];
    }
  }

  /** Distinct intents drawn from four places are at most four. */
  lemma {:induction false} AtMostAsMany(r: seq<Intent>, places: set<Intent>)
    requires (forall x | x in r :: x in places) && forall i, j | 0 <= i < j < |r| :: r[i] != r[j]
    ensures |r| <= |places|
    decreases |r|
  {
    if r != [] {
      var rest := r[1..];
      forall x | x in rest ensures x in places - {r[0]} {
        var k :| 0 <= k < |rest| && rest[k] == x;
        assert r[k + 1] == x && r[0] != r[k + 1];
      }
      AtMostAsMany(rest, places - {r[0]});
    }
  }

  /** At most four contacts of a source for each day of start. */
  lemma FourContactsPerDay(w: World, events: seq<Event>, a: Adapter, day: int)
    requires Separate(w)
    ensures |OnDay(Run(w, events).contacts, a, day)| <= 4
  {
    hide FilesOk, ProcessOk, Run, OnDay;
    EveryRunKeeps(w, events);
    var s := Run(w, events);
    var r := OnDay(s.contacts, a, day);
    OnDayKeeps(s.contacts, a, day);
    var at := (k: int) => if DaySlot(a, day, k) in s.files.claims then {s.files.claims[DaySlot(a, day, k)]} else {};
    forall x | x in r ensures x in at(0) + at(1) + at(2) + at(3) {
      var j :| 0 <= j < |s.contacts| && s.contacts[j] == x;
      assert BudgetHeld(s.files, s.contacts[j]);
      var k :| 0 <= k < 4 && Holds(s.files, DayClaim(x, k), x);
      assert x in at(k);
    }
    AtMostAsMany(r, at(0) + at(1) + at(2) + at(3));
    UnionSize(at(0), at(1), at(2), at(3));
  }

  lemma UnionSize(a: set<Intent>, b: set<Intent>, c: set<Intent>, d: set<Intent>)
    ensures |a + b + c + d| <= |a| + |b| + |c| + |d|
  {
  }

  function Other(a: Adapter): Adapter { match a case Census => Statutory case Statutory => Census }

  /** The evidence rail holds, under this identifier, something the other source brought. */
  predicate TakenByOther(files: Files, key: Key) {
    var other := Key(Other(key.adapter), key.id);
    key.id in files.acquisitions && other in files.intents
    && files.acquisitions[key.id].registration == files.intents[other].registration
  }

  /**
   On every history that processes can leave behind, stopped anywhere, reading back fails exactly when the identifier
   is outside the closed shape or the other source has stored evidence under it in the same root.
   */
  lemma InvalidExactlyWhenShared(w: World, events: seq<Event>, key: Key)
    requires Separate(w)
    ensures Inspect(w, Run(w, events).files, key) == Invalid <==>
      !Identifier(key.id) || TakenByOther(Run(w, events).files, key)
  {
    hide Run, ProcessOk, ContactsOk;
    EveryRunKeeps(w, events);
    var f := Run(w, events).files;
    assert key in f.intents ==> KeyOf(f.intents[key]) == key && IntentOk(w, f.intents[key]);
    assert key in f.receipts ==> ReceiptOk(w, f, key);
    if key.id in f.acquisitions {
      assert AcquisitionOk(w, f, key.id);
      IntakeReads(w, f, key.id);
      if TakenByOther(f, key) {
        OthersEvidence(w, f, key);
      } else {
        OwnEvidence(w, f, key);
      }
    } else {
      NoEvidence(w, f, key);
    }
  }

  lemma IntakeReads(w: World, f: Files, id: string)
    requires AcquisitionOk(w, f, id)
    ensures InspectIntake(f, id) == Here(f.acquisitions[id])
  {
    hide BudgetHeld;
  }

  lemma NoEvidence(w: World, f: Files, key: Key)
    requires FilesOk(w, f) && key.id !in f.acquisitions
    ensures History(w, f, key) != Invalid
  {
    hide ReceiptMatches, AcquisitionOk, ClaimOk;
    assert key in f.intents ==> KeyOf(f.intents[key]) == key && IntentOk(w, f.intents[key]);
    assert key in f.receipts ==> ReceiptOk(w, f, key);
  }

  lemma OthersEvidence(w: World, f: Files, key: Key)
    requires Separate(w) && FilesOk(w, f) && TakenByOther(f, key)
      && InspectIntake(f, key.id) == Here(f.acquisitions[key.id])
    ensures History(w, f, key) == Invalid
  {
    hide ReceiptMatches, AcquisitionOk, ClaimOk, ReceiptOk, PolicyAllows, Judged, BudgetHeld;
    var other := Key(Other(key.adapter), key.id);
    assert IntentOk(w, f.intents[other]) && KeyOf(f.intents[other]) == other;
    if key in f.intents {
      assert IntentOk(w, f.intents[key]) && KeyOf(f.intents[key]) == key;
      OtherSource(w, f.intents[key], f.intents[other]);
    }
  }

  lemma OwnEvidence(w: World, f: Files, key: Key)
    requires FilesOk(w, f) && key.id in f.acquisitions && !TakenByOther(f, key)
    requires InspectIntake(f, key.id) == Here(f.acquisitions[key.id])
    ensures History(w, f, key) != Invalid
  {
    hide ReceiptMatches, ClaimOk, BudgetHeld, InspectIntake;
    assert AcquisitionOk(w, f, key.id);
    assert StoredBy(w, f, key, f.acquisitions[key.id]);
    assert KeyOf(f.intents[key]) == key && IntentOk(w, f.intents[key]);
    assert key in f.receipts ==> ReceiptOk(w, f, key);
  }

  /**
   When only one source uses a root, no history of it is ever reported invalid, whatever identifier in the shape is
   asked for.
   */
  lemma {:induction false} OneSourceIsNeverInvalid(w: World, events: seq<Event>, key: Key)
    requires Separate(w) && forall e | e in events :: e.Launch? ==> e.adapter == key.adapter
    ensures Inspect(w, Run(w, events).files, key) == Invalid <==> !Identifier(key.id)
  {
    hide Inspect, Run, Inv, Identifier;
    OnlyThatSource(w, events, key.adapter);
    InvalidExactlyWhenShared(w, events, key);
  }

  ghost predicate Only(s: State, a: Adapter) {
    && (forall k | k in s.files.intents :: k.adapter == a)
    && (forall pid | pid in s.processes :: s.processes[pid].adapter == a && PlaceOf(s.processes[pid].place, a))
  }

  predicate PlaceOf(place: Place, a: Adapter) { HasIntent(place) ==> place.intent.adapter == a }

  lemma {:induction false} OnlyThatSource(w: World, events: seq<Event>, a: Adapter)
    requires forall e | e in events :: e.Launch? ==> e.adapter == a
    ensures Only(Run(w, events), a)
  {
    if events != [] {
      var before, e := events[..|events| - 1], events[|events| - 1];
      assert e in events && forall d | d in before :: d in events;
      OnlyThatSource(w, before, a);
      OnlyNext(w, Run(w, before), e, a);
    }
  }

  lemma OnlyNext(w: World, s: State, e: Event, a: Adapter)
    requires Only(s, a) && (e.Launch? ==> e.adapter == a)
    ensures Only(Next(w, s, e), a)
  {
    hide Inspect, InspectIntake, Parsed, PolicyAllows, Usable;
    if e.Step? && e.pid in s.processes {
      var p := s.processes[e.pid];
      assert PlaceOf(p.place, a);
    }
  }

  /** Only requests named in the closed shape come to anything. */
  ghost predicate InShape(s: State) {
    && (forall k | k in s.files.intents :: Identifier(k.id))
    && (forall pid | pid in s.processes :: s.processes[pid].place.Opening? ==> Identifier(s.processes[pid].request.id))
  }

  lemma NextInShape(w: World, s: State, e: Event)
    requires InShape(s)
    ensures InShape(Next(w, s, e))
  {
    hide History, InspectIntake, Parsed, PolicyAllows, Usable, Identifier;
  }

  /**
   A receipt is reported with the evidence it names, within its budget, and that evidence still parses to its
   observations.
   */
  predicate ReadsBack(w: World, f: Files, key: Key, r: Receipt) {
    var seen := Inspect(w, f, key);
    && seen.Present? && seen.receipt == Some(r) && seen.intent == r.intent && seen.acquisition.Some?
    && seen.acquisition == r.result.acquisition && seen.acquisition.value.content in f.objects
    && BudgetHeld(f, seen.intent)
    && seen.observations.Some? && seen.observations == r.result.observations
    && seen.observations == Observed(w, seen.intent, seen.acquisition.value)
  }

  /**
   Once captured, always readable: whatever happens afterwards, a receipt that says CAPTURED is reported,
   unchanged, with evidence on which the source's own parser still gives its observations, unless another source
   took the identifier.
   */
  lemma CapturedStaysReadable(w: World, events: seq<Event>, n: nat, key: Key)
    requires Separate(w) && n <= |events|
    requires key in Run(w, events[..n]).files.receipts
    requires Run(w, events[..n]).files.receipts[key].result.outcome == Captured
    requires !TakenByOther(Run(w, events).files, key)
    ensures ReadsBack(w, Run(w, events).files, key, Run(w, events[..n]).files.receipts[key])
  {
    hide Run, FilesOk, ContactsOk, ProcessOk, History, BudgetHeld;
    HistoryIsKept(w, events, n);
    EveryRunKeeps(w, events);
    RunInShape(w, events);
    var f := Run(w, events).files;
    assert key in f.receipts && f.receipts[key] == Run(w, events[..n]).files.receipts[key];
    ReceiptReads(w, f, key);
    InvalidExactlyWhenShared(w, events, key);
    CapturedRecomputes(w, f, key);
  }

  /** A receipt on disk belongs to an intent, and is the one that reading back returns. */
  lemma ReceiptReads(w: World, f: Files, key: Key)
    requires FilesOk(w, f) && key in f.receipts
    ensures key in f.intents
    ensures var seen := Inspect(w, f, key);
      !seen.Absent? && (seen.Present? ==>
        seen.intent == f.intents[key] == f.receipts[key].intent && seen.receipt == Some(f.receipts[key]))
  {
    hide ClaimOk, AcquisitionOk, InspectIntake, PolicyAllows, BudgetHeld;
    assert ReceiptOk(w, f, key);
  }

  lemma {:induction false} RunInShape(w: World, events: seq<Event>)
    ensures InShape(Run(w, events))
  {
    if events != [] {
      hide Next;
      RunInShape(w, events[..|events| - 1]);
      NextInShape(w, Run(w, events[..|events| - 1]), events[|events| - 1]);
    }
  }

  /**
   On any files at all, a capture is reported only if the source's own parser, run again on the stored bytes, gives
   the receipt's observations.
   */
  lemma CapturedRecomputes(w: World, files: Files, key: Key)
    ensures match Inspect(w, files, key)
      case Present(i, Some(r), a, o) =>
        r.result.outcome == Captured ==>
          && a.Some? && a == r.result.acquisition && a.value.content in files.objects && BudgetHeld(files, i)
          && Observed(w, i, a.value) == r.result.observations && o == r.result.observations && o.Some?
      case _ => true
  {
    hide BudgetHeld;
  }
}
