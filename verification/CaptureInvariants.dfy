/**
 What every step of every capture process keeps (src/acquisition/store.ts): the files, the contacts made and
 the processes in flight stay in order.
 */
module CaptureInvariants {
  import opened Basics
  import opened CaptureStore

  predicate Saved(files: Files, i: Intent) { KeyOf(i) in files.intents && files.intents[KeyOf(i)] == i }

  predicate IntentOk(w: World, i: Intent) {
    i.registration == w.registration(i.adapter, i.request) && PolicyAllows(i.registration, i.startedAt)
  }

  predicate ClaimOk(files: Files, s: Slot) {
    s in files.claims
    && var i := files.claims[s];
       Saved(files, i) && (s == MinuteClaim(i) || exists k | 0 <= k < 4 :: s == DayClaim(i, k))
  }

  /** The acquisition under this intent's identifier, when it is this source's. */
  function Own(files: Files, i: Intent): Option<Acquisition> {
    var id := i.request.id;
    if id in files.acquisitions && files.acquisitions[id].registration == i.registration
    then Some(files.acquisitions[id]) else None
  }

  predicate EvidenceOk(w: World, i: Intent, a: Acquisition) {
    && a.registration == i.registration && w.accepts(i.adapter, a.media) && a.capturedAt >= i.startedAt
    && 1 <= |a.content| <= w.maxBytes(i.adapter, i.request)
  }

  predicate StoredBy(w: World, files: Files, key: Key, a: Acquisition) {
    && key in files.intents
    && var i := files.intents[key];
       && EvidenceOk(w, i, a) && BudgetHeld(files, i) && MayIngest(a.registration, a.capturedAt)
       && |a.content| <= MAX_EVIDENCE_BYTES && a.content in files.objects
  }

  predicate AcquisitionOk(w: World, files: Files, id: string) {
    id in files.acquisitions
    && (StoredBy(w, files, Key(Census, id), files.acquisitions[id])
        || StoredBy(w, files, Key(Statutory, id), files.acquisitions[id]))
  }

  predicate ReceiptOk(w: World, files: Files, key: Key) {
    key in files.receipts && key in files.intents
    && ReceiptMatches(w, files, files.intents[key], files.receipts[key], Own(files, files.intents[key]))
  }

  ghost predicate FilesOk(w: World, files: Files) {
    && (forall k | k in files.intents :: KeyOf(files.intents[k]) == k && IntentOk(w, files.intents[k]))
    && (forall s | s in files.claims :: ClaimOk(files, s))
    && (forall id | id in files.acquisitions :: AcquisitionOk(w, files, id))
    && (forall k | k in files.receipts :: ReceiptOk(w, files, k))
  }

  ghost predicate ContactsOk(files: Files, contacts: seq<Intent>) {
    && (forall j | 0 <= j < |contacts| :: Saved(files, contacts[j]) && BudgetHeld(files, contacts[j]))
    && (forall i, j | 0 <= i < j < |contacts| :: contacts[i] != contacts[j])
  }

  ghost predicate NoClaim(files: Files, i: Intent) { forall s | s in files.claims :: files.claims[s] != i }

  ghost predicate MinuteOnly(files: Files, i: Intent) {
    Holds(files, MinuteClaim(i), i) && forall s | s in files.claims && files.claims[s] == i :: s == MinuteClaim(i)
  }

  predicate Quiet(files: Files, i: Intent) { KeyOf(i) !in files.receipts && Own(files, i) == None }

  predicate FinishOk(w: World, files: Files, i: Intent, earliest: Instant, result: Result) {
    KeyOf(i) !in files.receipts && ReceiptMatches(w, files, i, Receipt(i, result, earliest), Own(files, i))
  }

  ghost predicate PlaceOk(w: World, files: Files, contacts: seq<Intent>, place: Place) {
    match place
    case ClaimingMinute(i) => NoClaim(files, i) && i !in contacts && Quiet(files, i)
    case ClaimingDay(i, k) =>
      MinuteOnly(files, i) && i !in contacts && Quiet(files, i) && k <= 4
      && forall j | 0 <= j < k :: DayClaim(i, j) in files.claims
    case Contacting(i) => BudgetHeld(files, i) && i !in contacts && Quiet(files, i)
    case Waiting(i) => BudgetHeld(files, i) && Quiet(files, i)
    case Intake(i, a) => BudgetHeld(files, i) && Quiet(files, i) && EvidenceOk(w, i, a)
    case Storing(i, a) =>
      BudgetHeld(files, i) && Quiet(files, i) && EvidenceOk(w, i, a)
      && |a.content| <= MAX_EVIDENCE_BYTES && MayIngest(a.registration, a.capturedAt)
    case Publishing(i, a) =>
      BudgetHeld(files, i) && Quiet(files, i) && EvidenceOk(w, i, a)
      && |a.content| <= MAX_EVIDENCE_BYTES && MayIngest(a.registration, a.capturedAt) && a.content in files.objects
    case Finishing(i, earliest, result) => FinishOk(w, files, i, earliest, result)
    case _ => true
  }

  predicate HasIntent(place: Place) {
    !place.Begin? && !place.Opening? && !place.Returned? && !place.Stopped?
  }

  predicate Owns(w: World, files: Files, p: Process, pid: nat) {
    HasIntent(p.place) ==>
      var i := p.place.intent;
      i.nonce == pid && i.adapter == p.adapter && i.request == p.request && Saved(files, i) && IntentOk(w, i)
  }

  ghost predicate ProcessOk(w: World, files: Files, contacts: seq<Intent>, p: Process, pid: nat) {
    Owns(w, files, p, pid) && PlaceOk(w, files, contacts, p.place)
  }

  ghost predicate Inv(w: World, s: State) {
    && FilesOk(w, s.files) && ContactsOk(s.files, s.contacts)
    && forall pid | pid in s.processes :: ProcessOk(w, s.files, s.contacts, s.processes[pid], pid)
  }

  /** Files are only ever added, and what was added stays as it is. */
  ghost predicate Grows(f: Files, g: Files) {
    && (forall k | k in f.intents :: k in g.intents && g.intents[k] == f.intents[k])
    && (forall k | k in f.receipts :: k in g.receipts && g.receipts[k] == f.receipts[k])
    && (forall s | s in f.claims :: s in g.claims && g.claims[s] == f.claims[s])
    && f.objects <= g.objects
    && (forall id | id in f.acquisitions :: id in g.acquisitions && g.acquisitions[id] == f.acquisitions[id])
  }

  /** What one step of the process behind an intent may add. */
  ghost predicate Adds(f: Files, g: Files, i: Intent) {
    && Grows(f, g)
    && (forall k | k in g.intents :: k in f.intents || (k == KeyOf(i) && g.intents[k] == i))
    && (forall k | k in g.receipts :: k in f.receipts || k == KeyOf(i))
    && (forall s | s in g.claims :: s in f.claims || g.claims[s] == i)
    && (forall id | id in g.acquisitions ::
          id in f.acquisitions || (id == i.request.id && g.acquisitions[id].registration == i.registration))
  }

  lemma GrowthKeepsBudget(f: Files, g: Files, i: Intent)
    requires Grows(f, g)
    ensures BudgetHeld(f, i) ==> BudgetHeld(g, i)
    ensures DenialStands(f, i) ==> DenialStands(g, i)
    ensures Saved(f, i) ==> Saved(g, i)
  {
    if HoldsDaySlot(f, i) {
      var k :| 0 <= k < 4 && Holds(f, DayClaim(i, k), i);
      assert Holds(g, DayClaim(i, k), i);
    }
    if DenialStands(f, i) && f.claims[MinuteClaim(i)] == i {
      forall k | 0 <= k < 4 ensures !Holds(g, DayClaim(i, k), i) {
        assert DayClaim(i, k) in f.claims && !Holds(f, DayClaim(i, k), i);
      }
    }
  }

  lemma GrowthKeepsReceipt(w: World, f: Files, g: Files, i: Intent, r: Receipt)
    requires Grows(f, g) && Own(f, i) == Own(g, i) && ReceiptMatches(w, f, i, r, Own(f, i))
    ensures ReceiptMatches(w, g, i, r, Own(g, i))
  {
    hide Own, BudgetHeld, DenialStands;
    GrowthKeepsBudget(f, g, i);
  }

  lemma OtherSource(w: World, i: Intent, j: Intent)
    requires Separate(w) && IntentOk(w, i) && IntentOk(w, j) && i.adapter != j.adapter
    ensures i.registration != j.registration
  {
  }

  /** Another request's step does not change what is one's own. */
  lemma OthersAcquisition(w: World, f: Files, g: Files, i: Intent, j: Intent)
    requires Separate(w) && Adds(f, g, j) && Saved(f, i) && Saved(g, j) && i != j && IntentOk(w, i) && IntentOk(w, j)
    ensures Own(g, i) == Own(f, i)
  {
    assert Saved(g, i);
    if i.request.id == j.request.id {
      assert i.adapter != j.adapter;
      assert i.registration != j.registration;
    }
  }

  ghost predicate Acts(w: World, g: Files, j: Intent, pid: nat) { j.nonce == pid && Saved(g, j) && IntentOk(w, j) }

  lemma OthersPlaceKept(w: World, f: Files, c: seq<Intent>, g: Files, d: seq<Intent>, j: Intent, place: Place)
    requires Separate(w) && Adds(f, g, j) && Saved(g, j) && IntentOk(w, j) && (d == c || d == c + [j])
    requires HasIntent(place) && place.intent != j && Saved(f, place.intent) && IntentOk(w, place.intent)
    requires PlaceOk(w, f, c, place)
    ensures PlaceOk(w, g, d, place)
  {
    var i := place.intent;
    hide Own, BudgetHeld, DenialStands, IntentOk, ReceiptMatches;
    OthersAcquisition(w, f, g, i, j);
    GrowthKeepsBudget(f, g, i);
    assert KeyOf(i) != KeyOf(j);
    if place.Finishing? {
      GrowthKeepsReceipt(w, f, g, i, Receipt(i, place.result, place.earliest));
    }
  }

  lemma OthersKept(w: World, f: Files, c: seq<Intent>, g: Files, d: seq<Intent>, j: Intent, p: Process, pid: nat)
    requires Separate(w) && Adds(f, g, j) && Saved(g, j) && IntentOk(w, j) && (d == c || d == c + [j])
    requires ProcessOk(w, f, c, p, pid) && pid != j.nonce
    ensures ProcessOk(w, g, d, p, pid)
  {
    hide PlaceOk, IntentOk, Adds;
    if HasIntent(p.place) {
      OthersPlaceKept(w, f, c, g, d, j, p.place);
      assert Grows(f, g) by { AddsGrows(f, g, j); }
    } else {
      NoPlace(w, g, d, p.place);
    }
  }

  lemma AddsGrows(f: Files, g: Files, j: Intent)
    requires Adds(f, g, j)
    ensures Grows(f, g)
  {
  }

  lemma NoPlace(w: World, g: Files, d: seq<Intent>, place: Place)
    requires !HasIntent(place)
    ensures PlaceOk(w, g, d, place)
  {
  }

  /** What is on disk already stays in order when a request that has no receipt adds to it. */
  lemma SharedKept(w: World, f: Files, g: Files, j: Intent)
    requires Separate(w) && FilesOk(w, f) && Adds(f, g, j) && Saved(g, j) && IntentOk(w, j) && KeyOf(j) !in f.receipts
    ensures forall k | k in g.intents :: KeyOf(g.intents[k]) == k && IntentOk(w, g.intents[k])
    ensures forall s | s in f.claims :: ClaimOk(g, s)
    ensures forall id | id in f.acquisitions :: AcquisitionOk(w, g, id)
    ensures forall k | k in f.receipts :: ReceiptOk(w, g, k)
  {
    hide IntentOk, ReceiptMatches, BudgetHeld, EvidenceOk;
    forall k | k in f.receipts ensures ReceiptOk(w, g, k) {
      assert ReceiptOk(w, f, k);
      var i := f.intents[k];
      OthersAcquisition(w, f, g, i, j);
      GrowthKeepsReceipt(w, f, g, i, f.receipts[k]);
    }
    forall id | id in f.acquisitions ensures AcquisitionOk(w, g, id) {
      assert AcquisitionOk(w, f, id);
      var a := f.acquisitions[id];
      if StoredBy(w, f, Key(Census, id), a) {
        StoredStays(w, f, g, Key(Census, id), a);
      } else {
        StoredStays(w, f, g, Key(Statutory, id), a);
      }
    }
    forall s | s in f.claims ensures ClaimOk(g, s) {
      assert ClaimOk(f, s);
    }
  }

  lemma StoredStays(w: World, f: Files, g: Files, key: Key, a: Acquisition)
    requires Grows(f, g) && StoredBy(w, f, key, a)
    ensures StoredBy(w, g, key, a)
  {
    hide EvidenceOk, BudgetHeld;
    GrowthKeepsBudget(f, g, f.intents[key]);
  }

  lemma ContactsKept(f: Files, g: Files, c: seq<Intent>)
    requires Grows(f, g) && ContactsOk(f, c)
    ensures ContactsOk(g, c)
  {
    hide BudgetHeld;
    forall j | 0 <= j < |c| ensures Saved(g, c[j]) && BudgetHeld(g, c[j]) { GrowthKeepsBudget(f, g, c[j]); }
  }

  lemma Together(w: World, s: State, t: State, pid: nat, j: Intent)
    requires Separate(w) && Inv(w, s) && pid in s.processes && pid in t.processes
    requires t.processes == s.processes[pid := t.processes[pid]]
    requires Adds(s.files, t.files, j) && Acts(w, t.files, j, pid)
    requires t.contacts == s.contacts || t.contacts == s.contacts + [j]
    requires FilesOk(w, t.files) && ContactsOk(t.files, t.contacts)
    requires ProcessOk(w, t.files, t.contacts, t.processes[pid], pid)
    ensures Inv(w, t)
  {
    hide ProcessOk, Adds, FilesOk, ContactsOk;
    forall q | q in t.processes ensures ProcessOk(w, t.files, t.contacts, t.processes[q], q) {
      if q != pid { OthersKept(w, s.files, s.contacts, t.files, t.contacts, j, s.processes[q], q); }
    }
  }

  /** A step that touches no file and contacts nobody. */
  lemma OnlyPlace(w: World, s: State, t: State, pid: nat)
    requires Inv(w, s) && pid in s.processes && pid in t.processes && t.files == s.files && t.contacts == s.contacts
    requires t.processes == s.processes[pid := s.processes[pid].(place := t.processes[pid].place)]
    requires ProcessOk(w, s.files, s.contacts, t.processes[pid], pid)
    ensures Inv(w, t)
  {
    hide ProcessOk, FilesOk, ContactsOk;
  }

  lemma Same(f: Files, i: Intent)
    ensures Adds(f, f, i)
  {
  }

  /* One lemma for each kind of step. */

  function After(s: State, pid: nat, g: Files, d: seq<Intent>, place: Place): State
    requires pid in s.processes
  {
    State(g, s.processes[pid := s.processes[pid].(place := place)], d)
  }

  lemma Opened(w: World, s: State, pid: nat, i: Intent)
    requires Separate(w) && Inv(w, s) && pid in s.processes && s.processes[pid].place.Opening?
    requires i.nonce == pid && i.adapter == s.processes[pid].adapter && i.request == s.processes[pid].request
    requires IntentOk(w, i) && KeyOf(i) !in s.files.intents
    ensures Inv(w, After(s, pid, s.files.(intents := s.files.intents[KeyOf(i) := i]), s.contacts, ClaimingMinute(i)))
  {
    var f := s.files;
    var g := f.(intents := f.intents[KeyOf(i) := i]);
    NothingOfIt(w, f, i);
    OpenedFiles(w, f, i);
    AddsGrows(f, g, i);
    ContactsKept(f, g, s.contacts);
    assert i !in s.contacts by { NotContacted(f, s.contacts, i); }
    hide Adds, Grows, FilesOk, ContactsOk, IntentOk;
    Together(w, s, After(s, pid, g, s.contacts, ClaimingMinute(i)), pid, i);
  }

  lemma NotContacted(f: Files, c: seq<Intent>, i: Intent)
    requires ContactsOk(f, c) && KeyOf(i) !in f.intents
    ensures i !in c
  {
    hide BudgetHeld;
    forall j | 0 <= j < |c| ensures c[j] != i { assert Saved(f, c[j]); }
  }

  /** An identifier with no intent has no claim, receipt or acquisition of its own. */
  lemma NothingOfIt(w: World, f: Files, i: Intent)
    requires Separate(w) && FilesOk(w, f) && IntentOk(w, i) && KeyOf(i) !in f.intents
    ensures NoClaim(f, i) && KeyOf(i) !in f.receipts && Own(f, i) == None
  {
    hide BudgetHeld, EvidenceMatches, ReceiptMatches;
    forall s | s in f.claims ensures f.claims[s] != i { assert ClaimOk(f, s); }
    var id := i.request.id;
    if id in f.acquisitions {
      assert AcquisitionOk(w, f, id);
      var a := f.acquisitions[id];
      var key := if StoredBy(w, f, Key(Census, id), a) then Key(Census, id) else Key(Statutory, id);
      assert StoredBy(w, f, key, a) && key != KeyOf(i);
      var other := f.intents[key];
      assert IntentOk(w, other) && KeyOf(other) == key;
      OtherSource(w, i, other);
    }
    assert KeyOf(i) in f.receipts ==> ReceiptOk(w, f, KeyOf(i));
  }

  lemma OpenedFiles(w: World, f: Files, i: Intent)
    requires Separate(w) && FilesOk(w, f) && IntentOk(w, i) && KeyOf(i) !in f.intents && KeyOf(i) !in f.receipts
    ensures Adds(f, f.(intents := f.intents[KeyOf(i) := i]), i)
    ensures FilesOk(w, f.(intents := f.intents[KeyOf(i) := i]))
  {
    hide ClaimOk, AcquisitionOk, ReceiptOk, IntentOk;
    SharedKept(w, f, f.(intents := f.intents[KeyOf(i) := i]), i);
  }

  lemma ClaimedFiles(w: World, f: Files, s: Slot, i: Intent)
    requires Separate(w) && FilesOk(w, f) && Saved(f, i) && IntentOk(w, i) && KeyOf(i) !in f.receipts && s !in f.claims
    requires s == MinuteClaim(i) || exists k | 0 <= k < 4 :: s == DayClaim(i, k)
    ensures Adds(f, Claim(f, s, i), i) && FilesOk(w, Claim(f, s, i))
  {
    var g := Claim(f, s, i);
    assert Adds(f, g, i);
    SharedKept(w, f, g, i);
    assert ClaimOk(g, s);
    hide ClaimOk, AcquisitionOk, ReceiptOk, IntentOk;
  }

  /** What is known of a process that has an intent. */
  lemma Facts(w: World, s: State, pid: nat)
    requires Inv(w, s) && pid in s.processes && HasIntent(s.processes[pid].place)
    ensures FilesOk(w, s.files) && ContactsOk(s.files, s.contacts)
    ensures PlaceOk(w, s.files, s.contacts, s.processes[pid].place)
    ensures var i := s.processes[pid].place.intent; Saved(s.files, i) && IntentOk(w, i) && i.nonce == pid
  {
    hide FilesOk, ContactsOk, PlaceOk, IntentOk;
    assert ProcessOk(w, s.files, s.contacts, s.processes[pid], pid);
  }

  /** A process acts for its intent: it adds to the files and moves on. */
  lemma Act(w: World, s: State, pid: nat, g: Files, d: seq<Intent>, place: Place)
    requires Separate(w) && Inv(w, s) && pid in s.processes && HasIntent(s.processes[pid].place) && HasIntent(place)
    requires var i := s.processes[pid].place.intent; place.intent == i && Adds(s.files, g, i) && d == s.contacts
    requires FilesOk(w, g) && PlaceOk(w, g, d, place)
    ensures Inv(w, After(s, pid, g, d, place))
  {
    hide FilesOk, ContactsOk, PlaceOk, IntentOk, Adds, Grows;
    var i := s.processes[pid].place.intent;
    assert ProcessOk(w, s.files, s.contacts, s.processes[pid], pid);
    AddsGrows(s.files, g, i);
    ContactsKept(s.files, g, s.contacts);
    assert Saved(g, i) by { StaysSaved(s.files, g, i); }
    Together(w, s, After(s, pid, g, d, place), pid, i);
  }

  lemma StaysSaved(f: Files, g: Files, i: Intent)
    requires Grows(f, g) && Saved(f, i)
    ensures Saved(g, i)
  {
  }

  lemma NowClaimingDay(w: World, f: Files, c: seq<Intent>, i: Intent)
    requires PlaceOk(w, f, c, ClaimingMinute(i)) && MinuteClaim(i) !in f.claims
    ensures KeyOf(i) !in f.receipts
    ensures PlaceOk(w, Claim(f, MinuteClaim(i), i), c, ClaimingDay(i, 0))
  {
  }

  lemma MinuteClaimed(w: World, s: State, pid: nat)
    requires Separate(w) && Inv(w, s) && pid in s.processes && s.processes[pid].place.ClaimingMinute?
    requires MinuteClaim(s.processes[pid].place.intent) !in s.files.claims
    ensures var i := s.processes[pid].place.intent;
      Inv(w, After(s, pid, Claim(s.files, MinuteClaim(i), i), s.contacts, ClaimingDay(i, 0)))
  {
    hide Inv, PlaceOk, FilesOk, ContactsOk, Adds, Grows, IntentOk, Own, BudgetHeld;
    var f, i := s.files, s.processes[pid].place.intent;
    Facts(w, s, pid);
    NowClaimingDay(w, f, s.contacts, i);
    ClaimedFiles(w, f, MinuteClaim(i), i);
    Act(w, s, pid, Claim(f, MinuteClaim(i), i), s.contacts, ClaimingDay(i, 0));
  }

  lemma NowContacting(w: World, f: Files, c: seq<Intent>, i: Intent, k: nat)
    requires PlaceOk(w, f, c, ClaimingDay(i, k)) && k < 4 && DayClaim(i, k) !in f.claims
    ensures KeyOf(i) !in f.receipts
    ensures PlaceOk(w, Claim(f, DayClaim(i, k), i), c, Contacting(i))
  {
    assert Holds(Claim(f, DayClaim(i, k), i), DayClaim(i, k), i);
  }

  lemma DayClaimed(w: World, s: State, pid: nat)
    requires Separate(w) && Inv(w, s) && pid in s.processes && s.processes[pid].place.ClaimingDay?
    requires var p := s.processes[pid].place; p.slot < 4 && DayClaim(p.intent, p.slot) !in s.files.claims
    ensures var p := s.processes[pid].place;
      Inv(w, After(s, pid, Claim(s.files, DayClaim(p.intent, p.slot), p.intent), s.contacts, Contacting(p.intent)))
  {
    hide Inv, PlaceOk, FilesOk, ContactsOk, Adds, Grows, IntentOk, Own, BudgetHeld;
    var f, i, k := s.files, s.processes[pid].place.intent, s.processes[pid].place.slot;
    Facts(w, s, pid);
    NowContacting(w, f, s.contacts, i, k);
    ClaimedFiles(w, f, DayClaim(i, k), i);
    Act(w, s, pid, Claim(f, DayClaim(i, k), i), s.contacts, Contacting(i));
  }

  lemma Contacted(w: World, s: State, pid: nat)
    requires Separate(w) && Inv(w, s) && pid in s.processes && s.processes[pid].place.Contacting?
    ensures var i := s.processes[pid].place.intent;
      Inv(w, After(s, pid, s.files, s.contacts + [i], Waiting(i)))
  {
    var f, i := s.files, s.processes[pid].place.intent;
    assert ProcessOk(w, f, s.contacts, s.processes[pid], pid);
    hide FilesOk, IntentOk, BudgetHeld;
    Same(f, i);
    assert ContactsOk(f, s.contacts + [i]);
    Together(w, s, After(s, pid, f, s.contacts + [i], Waiting(i)), pid, i);
  }

  lemma ObjectFiles(w: World, f: Files, i: Intent, b: Bytes)
    requires Separate(w) && FilesOk(w, f) && Saved(f, i) && IntentOk(w, i) && KeyOf(i) !in f.receipts
    ensures Adds(f, f.(objects := f.objects + {b}), i) && FilesOk(w, f.(objects := f.objects + {b}))
  {
    hide ClaimOk, AcquisitionOk, ReceiptOk, IntentOk;
    SharedKept(w, f, f.(objects := f.objects + {b}), i);
  }

  lemma NowPublishing(w: World, f: Files, c: seq<Intent>, i: Intent, a: Acquisition)
    requires PlaceOk(w, f, c, Storing(i, a))
    ensures KeyOf(i) !in f.receipts
    ensures PlaceOk(w, f.(objects := f.objects + {a.content}), c, Publishing(i, a))
  {
    hide EvidenceOk;
  }

  lemma ObjectStored(w: World, s: State, pid: nat)
    requires Separate(w) && Inv(w, s) && pid in s.processes && s.processes[pid].place.Storing?
    ensures var p := s.processes[pid].place;
      Inv(w, After(s, pid, s.files.(objects := s.files.objects + {p.acquisition.content}), s.contacts,
                   Publishing(p.intent, p.acquisition)))
  {
    hide Inv, PlaceOk, FilesOk, ContactsOk, Adds, Grows, IntentOk, Own, BudgetHeld;
    var f, i, a := s.files, s.processes[pid].place.intent, s.processes[pid].place.acquisition;
    Facts(w, s, pid);
    NowPublishing(w, f, s.contacts, i, a);
    ObjectFiles(w, f, i, a.content);
    Act(w, s, pid, f.(objects := f.objects + {a.content}), s.contacts, Publishing(i, a));
  }

  lemma PublishedFiles(w: World, f: Files, i: Intent, a: Acquisition)
    requires Separate(w) && FilesOk(w, f) && Saved(f, i) && IntentOk(w, i) && i.request.id !in f.acquisitions
    requires KeyOf(i) !in f.receipts && EvidenceOk(w, i, a) && BudgetHeld(f, i)
    requires |a.content| <= MAX_EVIDENCE_BYTES && MayIngest(a.registration, a.capturedAt) && a.content in f.objects
    ensures var g := f.(acquisitions := f.acquisitions[i.request.id := a]); Adds(f, g, i) && FilesOk(w, g)
  {
    hide ClaimOk, ReceiptOk, IntentOk, BudgetHeld;
    var id := i.request.id;
    var g := f.(acquisitions := f.acquisitions[id := a]);
    SharedKept(w, f, g, i);
    GrowthKeepsBudget(f, g, i);
    assert StoredBy(w, g, KeyOf(i), a);
    assert AcquisitionOk(w, g, id) by {
      match i.adapter
      case Census => assert StoredBy(w, g, Key(Census, id), g.acquisitions[id]);
      case Statutory => assert StoredBy(w, g, Key(Statutory, id), g.acquisitions[id]);
    }
    hide AcquisitionOk, StoredBy;
  }

  /** The result drawn from stored evidence is one that reading back will accept. */
  lemma ParsedMatches(w: World, g: Files, i: Intent, a: Acquisition)
    requires EvidenceOk(w, i, a) && IntentOk(w, i) && BudgetHeld(g, i) && MayIngest(a.registration, a.capturedAt)
    requires Own(g, i) == Some(a) && KeyOf(i) !in g.receipts
    ensures FinishOk(w, g, i, a.capturedAt, Parsed(w, i, a))
  {
    hide BudgetHeld, Own;
  }

  lemma NowFinishing(w: World, f: Files, c: seq<Intent>, i: Intent, a: Acquisition)
    requires PlaceOk(w, f, c, Publishing(i, a)) && IntentOk(w, i) && i.request.id !in f.acquisitions
    ensures KeyOf(i) !in f.receipts && EvidenceOk(w, i, a) && BudgetHeld(f, i) && |a.content| <= MAX_EVIDENCE_BYTES
    ensures MayIngest(a.registration, a.capturedAt) && a.content in f.objects
    ensures PlaceOk(w, f.(acquisitions := f.acquisitions[i.request.id := a]), c,
                    Finishing(i, a.capturedAt, Parsed(w, i, a)))
  {
    hide BudgetHeld, FinishOk;
    var g := f.(acquisitions := f.acquisitions[i.request.id := a]);
    assert BudgetHeld(g, i) by { AcquisitionGrows(f, i.request.id, a); GrowthKeepsBudget(f, g, i); }
    ParsedMatches(w, g, i, a);
  }

  lemma Published(w: World, s: State, pid: nat)
    requires Separate(w) && Inv(w, s) && pid in s.processes && s.processes[pid].place.Publishing?
    requires s.processes[pid].place.intent.request.id !in s.files.acquisitions
    ensures var p := s.processes[pid].place;
      Inv(w, After(s, pid, s.files.(acquisitions := s.files.acquisitions[p.intent.request.id := p.acquisition]),
                   s.contacts, Finishing(p.intent, p.acquisition.capturedAt, Parsed(w, p.intent, p.acquisition))))
  {
    hide Inv, PlaceOk, FilesOk, ContactsOk, Adds, Grows, IntentOk, Own, Parsed, FinishOk, BudgetHeld;
    var f, i, a := s.files, s.processes[pid].place.intent, s.processes[pid].place.acquisition;
    Facts(w, s, pid);
    NowFinishing(w, f, s.contacts, i, a);
    PublishedFiles(w, f, i, a);
    Act(w, s, pid, f.(acquisitions := f.acquisitions[i.request.id := a]), s.contacts,
        Finishing(i, a.capturedAt, Parsed(w, i, a)));
  }

  lemma LaterFinish(w: World, f: Files, i: Intent, earliest: Instant, finished: Instant, result: Result)
    requires FinishOk(w, f, i, earliest, result) && finished >= earliest
    ensures ReceiptMatches(w, f, i, Receipt(i, result, finished), Own(f, i))
  {
    hide Own, BudgetHeld, DenialStands;
  }

  lemma ReceiptFiles(w: World, f: Files, i: Intent, r: Receipt)
    requires Separate(w) && FilesOk(w, f) && Saved(f, i) && IntentOk(w, i) && KeyOf(i) !in f.receipts
    requires ReceiptMatches(w, f, i, r, Own(f, i))
    ensures var g := f.(receipts := f.receipts[KeyOf(i) := r]); Adds(f, g, i) && FilesOk(w, g)
  {
    hide ClaimOk, AcquisitionOk, IntentOk, ReceiptMatches;
    var g := f.(receipts := f.receipts[KeyOf(i) := r]);
    SharedKept(w, f, g, i);
    GrowthKeepsReceipt(w, f, g, i, r);
    assert ReceiptOk(w, g, KeyOf(i));
    hide ReceiptOk;
  }

  lemma NowReporting(w: World, f: Files, c: seq<Intent>, p: Place, finished: Instant)
    requires p.Finishing? && PlaceOk(w, f, c, p) && finished >= p.earliest
    ensures var i := p.intent;
      var r := Receipt(i, p.result, finished);
      && KeyOf(i) !in f.receipts && ReceiptMatches(w, f, i, r, Own(f, i))
      && PlaceOk(w, f.(receipts := f.receipts[KeyOf(i) := r]), c, Reporting(i))
  {
    hide ReceiptMatches;
    LaterFinish(w, f, p.intent, p.earliest, finished, p.result);
  }

  lemma ReceiptWritten(w: World, s: State, pid: nat, finished: Instant)
    requires Separate(w) && Inv(w, s) && pid in s.processes && s.processes[pid].place.Finishing?
    requires finished >= s.processes[pid].place.earliest
    ensures var p := s.processes[pid].place;
      Inv(w, After(s, pid, s.files.(receipts :=
        s.files.receipts[KeyOf(p.intent) := Receipt(p.intent, p.result, finished)]),
                   s.contacts, Reporting(p.intent)))
  {
    hide Inv, PlaceOk, FilesOk, ContactsOk, Adds, Grows, IntentOk, Own, ReceiptMatches, FinishOk, BudgetHeld;
    var f, p := s.files, s.processes[pid].place;
    var i := p.intent;
    var r := Receipt(i, p.result, finished);
    Facts(w, s, pid);
    NowReporting(w, f, s.contacts, p, finished);
    ReceiptFiles(w, f, i, r);
    Act(w, s, pid, f.(receipts := f.receipts[KeyOf(i) := r]), s.contacts, Reporting(i));
  }

  /** Where a step goes when it changes no file: the new place is in order too. */
  lemma NextPlaceOk(w: World, f: Files, c: seq<Intent>, p: Process, pid: nat, x: Script)
    requires FilesOk(w, f) && ProcessOk(w, f, c, p, pid)
    requires var m := Move(w, f, p, pid, x); m.files == f && !m.contacted
    requires !p.place.Storing? && !p.place.Publishing?
    ensures ProcessOk(w, f, c, p.(place := Move(w, f, p, pid, x).place), pid)
  {
    hide BudgetHeld, FilesOk, Inspect;
    match p.place
    case ClaimingMinute(i) => assert !(MinuteClaim(i) in f.claims && f.claims[MinuteClaim(i)] == i);
    case _ =>
  }

  /** Every step keeps everything in order. */
  lemma StepKeeps(w: World, s: State, pid: nat, x: Script)
    requires Separate(w) && Inv(w, s) && pid in s.processes
    ensures Inv(w, Next(w, s, Step(pid, x)))
  {
    hide Inv, Next;
    match s.processes[pid].place
    case Opening => OpeningKeeps(w, s, pid, x);
    case ClaimingMinute(_) => ClaimKeeps(w, s, pid, x);
    case ClaimingDay(_, _) => ClaimKeeps(w, s, pid, x);
    case Contacting(_) => ContactKeeps(w, s, pid, x);
    case Storing(_, _) => StoringKeeps(w, s, pid, x);
    case Publishing(_, _) => PublishingKeeps(w, s, pid, x);
    case Finishing(_, _, _) => FinishKeeps(w, s, pid, x);
    case _ => Unmoved(w, s, pid, x);
  }

  lemma ClaimKeeps(w: World, s: State, pid: nat, x: Script)
    requires Separate(w) && Inv(w, s) && pid in s.processes
    requires s.processes[pid].place.ClaimingMinute? || s.processes[pid].place.ClaimingDay?
    ensures Inv(w, Next(w, s, Step(pid, x)))
  {
    hide Inv, Claim;
    match s.processes[pid].place
    case ClaimingMinute(i) =>
      if MinuteClaim(i) in s.files.claims { Unmoved(w, s, pid, x); } else { MinuteClaimed(w, s, pid); }
    case ClaimingDay(i, k) =>
      if k < 4 && DayClaim(i, k) !in s.files.claims { DayClaimed(w, s, pid); } else { Unmoved(w, s, pid, x); }
  }

  lemma ContactKeeps(w: World, s: State, pid: nat, x: Script)
    requires Separate(w) && Inv(w, s) && pid in s.processes && s.processes[pid].place.Contacting?
    ensures Inv(w, Next(w, s, Step(pid, x)))
  {
    hide Inv;
    Contacted(w, s, pid);
  }

  lemma StoringKeeps(w: World, s: State, pid: nat, x: Script)
    requires Separate(w) && Inv(w, s) && pid in s.processes && s.processes[pid].place.Storing?
    ensures Inv(w, Next(w, s, Step(pid, x)))
  {
    hide Inv;
    ObjectStored(w, s, pid);
  }

  lemma FinishKeeps(w: World, s: State, pid: nat, x: Script)
    requires Separate(w) && Inv(w, s) && pid in s.processes && s.processes[pid].place.Finishing?
    ensures Inv(w, Next(w, s, Step(pid, x)))
  {
    hide Inv;
    var p := s.processes[pid].place;
    if x.finished < p.earliest || KeyOf(p.intent) in s.files.receipts { Unmoved(w, s, pid, x); }
    else { ReceiptWritten(w, s, pid, x.finished); }
  }

  lemma Unmoved(w: World, s: State, pid: nat, x: Script)
    requires Inv(w, s) && pid in s.processes
    requires var p := s.processes[pid];
      var m := Move(w, s.files, p, pid, x);
      m.files == s.files && !m.contacted && !p.place.Storing? && !p.place.Publishing?
    ensures Inv(w, Next(w, s, Step(pid, x)))
  {
    hide FilesOk, ContactsOk, ProcessOk, Move;
    NextPlaceOk(w, s.files, s.contacts, s.processes[pid], pid, x);
    OnlyPlace(w, s, Next(w, s, Step(pid, x)), pid);
  }

  lemma OpeningKeeps(w: World, s: State, pid: nat, x: Script)
    requires Separate(w) && Inv(w, s) && pid in s.processes && s.processes[pid].place.Opening?
    ensures Inv(w, Next(w, s, Step(pid, x)))
  {
    hide Inv, PolicyAllows;
    var p := s.processes[pid];
    var i := Intent(p.adapter, p.request, x.start, pid, w.registration(p.adapter, p.request));
    if !PolicyAllows(i.registration, i.startedAt) || KeyOf(i) in s.files.intents { Unmoved(w, s, pid, x); }
    else { Opened(w, s, pid, i); }
  }

  lemma PublishingKeeps(w: World, s: State, pid: nat, x: Script)
    requires Separate(w) && Inv(w, s) && pid in s.processes && s.processes[pid].place.Publishing?
    ensures Inv(w, Next(w, s, Step(pid, x)))
  {
    var p := s.processes[pid];
    assert ProcessOk(w, s.files, s.contacts, p, pid);
    var i, a := p.place.intent, p.place.acquisition;
    if i.request.id !in s.files.acquisitions {
      hide Inv, Parsed;
      Published(w, s, pid);
    } else {
      assert s.files.acquisitions[i.request.id] != a;
      hide FilesOk, ContactsOk, PlaceOk;
      NoPlace(w, s.files, s.contacts, Stopped);
      OnlyPlace(w, s, Next(w, s, Step(pid, x)), pid);
    }
  }

  lemma GrowsThrough(f: Files, g: Files, h: Files)
    requires Grows(f, g) && Grows(g, h)
    ensures Grows(f, h)
  {
  }

  lemma IntentGrows(f: Files, k: Key, i: Intent)
    requires k !in f.intents
    ensures Grows(f, f.(intents := f.intents[k := i]))
  {
  }

  lemma ClaimGrows(f: Files, s: Slot, i: Intent)
    requires s !in f.claims
    ensures Grows(f, Claim(f, s, i))
  {
  }

  lemma ReceiptGrows(f: Files, k: Key, r: Receipt)
    requires k !in f.receipts
    ensures Grows(f, f.(receipts := f.receipts[k := r]))
  {
  }

  lemma AcquisitionGrows(f: Files, id: string, a: Acquisition)
    requires id in f.acquisitions ==> f.acquisitions[id] == a
    ensures Grows(f, f.(acquisitions := f.acquisitions[id := a]))
  {
  }

  lemma ObjectGrows(f: Files, b: Bytes)
    ensures Grows(f, f.(objects := f.objects + {b}))
  {
  }

  lemma MoveGrows(w: World, f: Files, p: Process, nonce: nat, x: Script)
    ensures Grows(f, Move(w, f, p, nonce, x).files)
  {
    hide Inspect, InspectIntake, Parsed, PolicyAllows, Usable, MayIngest, Grows, Claim;
    GrowsItself(f);
    match p.place
    case Opening =>
      var i := Intent(p.adapter, p.request, x.start, nonce, w.registration(p.adapter, p.request));
      if KeyOf(i) !in f.intents { IntentGrows(f, KeyOf(i), i); }
    case ClaimingMinute(i) => if MinuteClaim(i) !in f.claims { ClaimGrows(f, MinuteClaim(i), i); }
    case ClaimingDay(i, k) => if DayClaim(i, k) !in f.claims { ClaimGrows(f, DayClaim(i, k), i); }
    case Storing(i, a) => ObjectGrows(f, a.content);
    case Publishing(i, a) =>
      if i.request.id in f.acquisitions ==> f.acquisitions[i.request.id] == a { AcquisitionGrows(f, i.request.id, a); }
    case Finishing(i, earliest, result) =>
      if KeyOf(i) !in f.receipts { ReceiptGrows(f, KeyOf(i), Receipt(i, result, x.finished)); }
    case _ =>
  }

  lemma StepGrows(w: World, s: State, e: Event)
    ensures Grows(s.files, Next(w, s, e).files)
  {
    hide Move, Grows;
    GrowsItself(s.files);
    if e.Step? && e.pid in s.processes { MoveGrows(w, s.files, s.processes[e.pid], e.pid, e.script); }
  }

  lemma GrowsItself(f: Files)
    ensures Grows(f, f)
  {
  }
}
