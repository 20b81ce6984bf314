/**
 One capture as the store's own code (src/acquisition/store.ts), proved to take the steps of the protocol,
 and two sources that share a root.
 */
module CaptureProcess {
  import opened Ordering
  import opened CaptureStore
  import opened CaptureInvariants
  import opened CapturePromises

  /* ---- One process from beginning to end ---- */

  datatype Seen = Seen(files: Files, place: Place, contacts: nat)

  /** The files, the place and the number of contacts after n steps with nobody else about. */
  function Moves(w: World, p: Process, f: Files, nonce: nat, x: Script, n: nat): Seen {
    if n == 0 then Seen(f, p.place, 0)
    else
      var b := Moves(w, p, f, nonce, x, n - 1);
      var m := Move(w, b.files, p.(place := b.place), nonce, x);
      Seen(m.files, m.place, b.contacts + if m.contacted then 1 else 0)
  }

  ghost predicate Reached(w: World, p: Process, f: Files, nonce: nat, x: Script, s: Seen) {
    exists n: nat :: Moves(w, p, f, nonce, x, n) == s
  }

  lemma AtStart(w: World, p: Process, f: Files, nonce: nat, x: Script)
    ensures Reached(w, p, f, nonce, x, Seen(f, p.place, 0))
  {
    assert Moves(w, p, f, nonce, x, 0) == Seen(f, p.place, 0);
  }

  lemma Further(w: World, p: Process, f: Files, nonce: nat, x: Script, s: Seen)
    requires Reached(w, p, f, nonce, x, s)
    ensures var m := Move(w, s.files, p.(place := s.place), nonce, x);
      Reached(w, p, f, nonce, x, Seen(m.files, m.place, s.contacts + if m.contacted then 1 else 0))
  {
    hide Move;
    var n: nat :| Moves(w, p, f, nonce, x, n) == s;
    var m := Move(w, s.files, p.(place := s.place), nonce, x);
    assert Moves(w, p, f, nonce, x, n + 1) == Seen(m.files, m.place, s.contacts + if m.contacted then 1 else 0);
  }

  lemma AbsentHasNoIntent(w: World, files: Files, key: Key)
    requires Inspect(w, files, key).Absent?
    ensures key !in files.intents
  {
    hide InspectIntake, ReceiptMatches;
  }

  /** The first slot of an intent's day that nobody holds. */
  predicate FirstFree(files: Files, i: Intent, k: int) {
    DayClaim(i, k) !in files.claims && forall j | 0 <= j < k :: DayClaim(i, j) in files.claims
  }

  /** The store of one source over one root, used by one process. */
  class Store {
    const w: World
    const adapter: Adapter
    var files: Files

    constructor (w: World, adapter: Adapter, files: Files)
      ensures this.w == w && this.adapter == adapter && this.files == files
    {
      this.w, this.adapter, this.files := w, adapter, files;
    }

    /** A create-only slot: claimed if nobody holds it, refused if anybody does. */
    method Reserve(s: Slot, i: Intent) returns (granted: bool)
      modifies this
      ensures granted <==> s !in old(files).claims
      ensures files == if granted then Claim(old(files), s, i) else old(files)
    {
      granted := s !in files.claims;
      if granted { files := Claim(files, s, i); }
    }

    /** The minute first, then the first free slot of the day. */
    method ReserveBudget(i: Intent, ghost p: Process, ghost f: Files, ghost nonce: nat, ghost x: Script)
      returns (granted: bool)
      requires Reached(w, p, f, nonce, x, Seen(files, ClaimingMinute(i), 0))
      modifies this
      ensures Reached(w, p, f, nonce, x,
                Seen(files, if granted then Contacting(i) else Finishing(i, i.startedAt, Failing(BudgetExhausted)), 0))
      ensures granted <==>
        MinuteClaim(i) !in old(files).claims && exists k | 0 <= k < 4 :: DayClaim(i, k) !in old(files).claims
      ensures granted ==> exists k | 0 <= k < 4 ::
        FirstFree(old(files), i, k) && files == Claim(Claim(old(files), MinuteClaim(i), i), DayClaim(i, k), i)
      ensures !granted ==>
        files == if MinuteClaim(i) in old(files).claims then old(files) else Claim(old(files), MinuteClaim(i), i)
    {
      hide Reached;
      Further(w, p, f, nonce, x, Seen(files, ClaimingMinute(i), 0));
      granted := Reserve(MinuteClaim(i), i);
      if !granted { return false; }
      var slot := 0;
      while slot < 4
        invariant 0 <= slot <= 4
        invariant Reached(w, p, f, nonce, x, Seen(files, ClaimingDay(i, slot), 0))
        invariant files == Claim(old(files), MinuteClaim(i), i)
        invariant forall k | 0 <= k < slot :: DayClaim(i, k) in old(files).claims
      {
        Further(w, p, f, nonce, x, Seen(files, ClaimingDay(i, slot), 0));
        granted := Reserve(DayClaim(i, slot), i);
        if granted {
          assert FirstFree(old(files), i, slot);
          return true;
        }
        slot := slot + 1;
      }
      Further(w, p, f, nonce, x, Seen(files, ClaimingDay(i, slot), 0));
      return false;
    }

    method Finish(i: Intent, earliest: Instant, result: Result, x: Script,
                  ghost p: Process, ghost f: Files, ghost nonce: nat, ghost contacts: nat)
      returns (out: Place)
      requires Reached(w, p, f, nonce, x, Seen(files, Finishing(i, earliest, result), contacts))
      modifies this
      ensures Reached(w, p, f, nonce, x, Seen(files, out, contacts)) && (out.Returned? || out.Stopped?)
    {
      hide Reached, Inspect;
      Further(w, p, f, nonce, x, Seen(files, Finishing(i, earliest, result), contacts));
      if x.finished < earliest || KeyOf(i) in files.receipts { return Stopped; }
      files := files.(receipts := files.receipts[KeyOf(i) := Receipt(i, result, x.finished)]);
      Further(w, p, f, nonce, x, Seen(files, Reporting(i), contacts));
      return Returned(Inspect(w, files, KeyOf(i)));
    }

    /** The bytes go to the evidence rail before anything parses them. */
    method Keep(i: Intent, a: Acquisition, ghost p: Process, ghost f: Files, ghost nonce: nat, ghost x: Script)
      returns (stored: bool)
      requires Reached(w, p, f, nonce, x, Seen(files, Intake(i, a), 1))
      modifies this
      ensures Reached(w, p, f, nonce, x,
                Seen(files, if stored then Finishing(i, a.capturedAt, Parsed(w, i, a)) else Stopped, 1))
    {
      hide Reached, Parsed;
      Further(w, p, f, nonce, x, Seen(files, Intake(i, a), 1));
      if |a.content| > MAX_EVIDENCE_BYTES || !MayIngest(a.registration, a.capturedAt) { return false; }
      var existing := InspectIntake(files, i.request.id);
      if !existing.Missing? { return existing == Here(a); }
      Further(w, p, f, nonce, x, Seen(files, Storing(i, a), 1));
      files := files.(objects := files.objects + {a.content});
      Further(w, p, f, nonce, x, Seen(files, Publishing(i, a), 1));
      files := files.(acquisitions := files.acquisitions[i.request.id := a]);
      return true;
    }

    /** A whole capture takes the steps of the protocol, and contacts the source at most once. */
    method Capture(request: Request, nonce: nat, x: Script) returns (out: Place, contacts: nat)
      modifies this
      ensures Reached(w, Process(adapter, request, Begin), old(files), nonce, x, Seen(files, out, contacts))
      ensures contacts <= 1 && (out.Returned? || out.Stopped?)
    {
      hide Reached, Inspect, Parsed, PolicyAllows, Usable;
      ghost var p, f := Process(adapter, request, Begin), files;
      contacts := 0;
      AtStart(w, p, f, nonce, x);
      Further(w, p, f, nonce, x, Seen(files, Begin, 0));
      var found := Inspect(w, files, Key(adapter, request.id));
      if !found.Absent? {
        out := if found.Present? && found.intent.request == request then Returned(found) else Stopped;
        return;
      }
      if !x.enabled { return Stopped, 0; }
      AbsentHasNoIntent(w, files, Key(adapter, request.id));
      var i := Intent(adapter, request, x.start, nonce, w.registration(adapter, request));
      Further(w, p, f, nonce, x, Seen(files, Opening, 0));
      if !PolicyAllows(i.registration, i.startedAt) { return Stopped, 0; }
      files := files.(intents := files.intents[KeyOf(i) := i]);
      var granted := ReserveBudget(i, p, f, nonce, x);
      if !granted {
        out := Finish(i, i.startedAt, Failing(BudgetExhausted), x, p, f, nonce, 0);
        return;
      }
      Further(w, p, f, nonce, x, Seen(files, Contacting(i), 0));
      contacts := 1;
      Further(w, p, f, nonce, x, Seen(files, Waiting(i), 1));
      match x.answer {
        case Refused(limited) =>
          out := Finish(i, i.startedAt, Failing(if limited then RateLimited else FetchFailed), x, p, f, nonce, 1);
        case Response(bytes, media) =>
          if x.captured < i.startedAt { return Stopped, 1; }
          if !Usable(w, i, bytes, media) {
            out := Finish(i, x.captured, Failing(FetchFailed), x, p, f, nonce, 1);
            return;
          }
          var a := Acquisition(i.registration, x.captured, media, bytes);
          var stored := Keep(i, a, p, f, nonce, x);
          if !stored { return Stopped, 1; }
          out := Finish(i, a.capturedAt, Parsed(w, i, a), x, p, f, nonce, 1);
      }
    }
  }

  /* ---- Two sources over one root ---- */

  function Times(pid: nat, x: Script, n: nat): seq<Event> {
    if n == 0 then [] else Times(pid, x, n - 1) + [Step(pid, x)]
  }

  /** One process alone over an empty root. */
  function Alone(a: Adapter, r: Request, x: Script, n: nat): seq<Event> { [Launch(0, a, r)] + Times(0, x, n) }

  lemma {:induction false} AloneMoves(w: World, a: Adapter, r: Request, x: Script, n: nat)
    ensures var s := Run(w, Alone(a, r, x, n));
      var m := Moves(w, Process(a, r, Begin), EMPTY, 0, x, n);
      s.files == m.files && s.processes == map[0 := Process(a, r, m.place)]
  {
    hide Move;
    var events := Alone(a, r, x, n);
    if n == 0 {
      assert events[..0] == [];
      assert Run(w, []) == START;
    } else {
      AloneMoves(w, a, r, x, n - 1);
      assert events[..|events| - 1] == Alone(a, r, x, n - 1);
    }
  }

  /** A script that a source answers with usable bytes while its policy holds. */
  predicate Fruitful(w: World, a: Adapter, r: Request, x: Script) {
    var reg := w.registration(a, r);
    && Identifier(r.id) && x.enabled && reg.ingest && reg.derive
    && reg.from <= x.start <= x.captured < reg.until
    && x.answer.Response? && 1 <= |x.answer.bytes| <= 8_388_608 && |x.answer.bytes| <= w.maxBytes(a, r)
    && w.accepts(a, x.answer.media)
  }

  lemma FruitfulStores(w: World, a: Adapter, r: Request, x: Script)
    requires Fruitful(w, a, r, x)
    ensures var f := Moves(w, Process(a, r, Begin), EMPTY, 0, x, 9).files;
      var i := Intent(a, r, x.start, 0, w.registration(a, r));
      && f.intents == map[KeyOf(i) := i] && f.acquisitions.Keys == {r.id}
      && f.acquisitions[r.id].registration == i.registration
  {
    hide Parsed;
    var p := Process(a, r, Begin);
    var i := Intent(a, r, x.start, 0, w.registration(a, r));
    var q := Acquisition(i.registration, x.captured, x.answer.media, x.answer.bytes);
    var f1 := EMPTY.(intents := map[KeyOf(i) := i]);
    var f2 := Claim(f1, MinuteClaim(i), i);
    var f3 := Claim(f2, DayClaim(i, 0), i);
    assert Moves(w, p, EMPTY, 0, x, 1) == Seen(EMPTY, Opening, 0);
    assert Moves(w, p, EMPTY, 0, x, 2) == Seen(f1, ClaimingMinute(i), 0);
    assert Moves(w, p, EMPTY, 0, x, 3) == Seen(f2, ClaimingDay(i, 0), 0);
    assert Moves(w, p, EMPTY, 0, x, 4) == Seen(f3, Contacting(i), 0);
    assert Moves(w, p, EMPTY, 0, x, 5) == Seen(f3, Waiting(i), 1);
    assert Moves(w, p, EMPTY, 0, x, 6) == Seen(f3, Intake(i, q), 1);
    assert Moves(w, p, EMPTY, 0, x, 7) == Seen(f3, Storing(i, q), 1);
    assert Moves(w, p, EMPTY, 0, x, 8) == Seen(f3.(objects := {q.content}), Publishing(i, q), 1);
  }

  /**
   Separate capture directories do not keep two sources apart: once one has stored evidence for an identifier,
   the other, asked for a request of that name it has never seen, finds its history invalid and stops at once.
   */
  lemma SharedIdentifierIsRefused(w: World, r: Request, q: Request, x: Script, y: Script)
    requires Separate(w) && r.id == q.id && Fruitful(w, Census, r, x)
    ensures var s := Run(w, Alone(Census, r, x, 9));
      && Key(Statutory, q.id) !in s.files.intents && Key(Statutory, q.id) !in s.files.receipts
      && Inspect(w, s.files, Key(Statutory, q.id)) == Invalid
      && Move(w, s.files, Process(Statutory, q, Begin), 1, y) == Moved(s.files, Stopped, false)
  {
    hide Run, Moves, Inv, FilesOk;
    AloneMoves(w, Census, r, x, 9);
    FruitfulStores(w, Census, r, x);
    InvalidExactlyWhenShared(w, Alone(Census, r, x, 9), Key(Statutory, q.id));
    EveryRunKeeps(w, Alone(Census, r, x, 9));
    var s := Run(w, Alone(Census, r, x, 9));
    ReceiptsHaveIntents(w, s, Key(Statutory, q.id));
    hide Inspect;
  }

  lemma ReceiptsHaveIntents(w: World, s: State, key: Key)
    requires Inv(w, s) && key !in s.files.intents
    ensures key !in s.files.receipts
  {
    hide ReceiptMatches;
    assert key in s.files.receipts ==> ReceiptOk(w, s.files, key);
  }
}
