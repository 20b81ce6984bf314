/**
 When a source is contacted and what is then reported (src/acquisition/store.ts): the policy in force, the day's four
 slots, and every check that reading back makes.
 */
module CaptureContacts {
  import opened Basics
  import opened Ordering
  import opened CaptureStore
  import opened CaptureInvariants
  import opened CapturePromises
  import opened CaptureProcess

  /* ---- Policy ---- */

  /** No source is ever contacted outside the window of its policy, or without the right to ingest and to derive. */
  lemma ContactsAreAllowed(w: World, events: seq<Event>, j: nat)
    requires Separate(w) && j < |Run(w, events).contacts|
    ensures var c := Run(w, events).contacts[j];
      && Identifier(c.request.id) && c.registration == w.registration(c.adapter, c.request)
      && c.registration.from <= c.startedAt < c.registration.until
      && c.registration.ingest && c.registration.derive
  {
    hide Run, ProcessOk, BudgetHeld, ClaimOk, AcquisitionOk, ReceiptOk;
    EveryRunKeeps(w, events);
    RunInShape(w, events);
    var s := Run(w, events);
    var c := s.contacts[j];
    assert Saved(s.files, c) && IntentOk(w, s.files.intents[KeyOf(c)]);
  }

  /** Nothing is ever stored that a policy did not admit, or that is empty or larger than eight mebibytes. */
  lemma EvidenceIsAdmitted(w: World, events: seq<Event>, id: string)
    requires Separate(w) && id in Run(w, events).files.acquisitions
    ensures var a := Run(w, events).files.acquisitions[id];
      && 1 <= |a.content| <= 8_388_608 && a.content in Run(w, events).files.objects
      && a.registration.from <= a.capturedAt < a.registration.until && a.registration.ingest
  {
    hide Run, ProcessOk, BudgetHeld, ContactsOk, ReceiptMatches;
    EveryRunKeeps(w, events);
    assert AcquisitionOk(w, Run(w, events).files, id);
  }

  /* ---- The day's slots ---- */

  /** The claims that stand on one source's day. */
  ghost function DayClaims(f: Files, a: Adapter, day: int): set<Slot> {
    set s | s in f.claims && s.DaySlot? && s.adapter == a && s.day == day
  }

  lemma DayClaimsAre(w: World, f: Files, a: Adapter, day: int)
    requires FilesOk(w, f)
    ensures DayClaims(f, a, day) <= {DaySlot(a, day, 0), DaySlot(a, day, 1), DaySlot(a, day, 2), DaySlot(a, day, 3)}
  {
    hide IntentOk, AcquisitionOk, ReceiptOk, Saved;
    forall s | s in DayClaims(f, a, day)
      ensures s in {DaySlot(a, day, 0), DaySlot(a, day, 1), DaySlot(a, day, 2), DaySlot(a, day, 3)} {
      assert ClaimOk(f, s);
    }
  }

  lemma SubsetSize<T>(a: set<T>, b: set<T>)
    requires a <= b
    ensures |a| <= |b| && (|a| == |b| <==> b - a == {})
  {
    assert |b| == |a| + |b - a| by { assert b == a + (b - a); }
  }

  /** Some slot is free exactly when fewer than four claims stand. */
  lemma FreeSlot(w: World, f: Files, i: Intent)
    requires FilesOk(w, f)
    ensures |DayClaims(f, i.adapter, i.startedAt / 86_400_000)| < 4 <==>
      exists k | 0 <= k < 4 :: DayClaim(i, k) !in f.claims
  {
    hide FilesOk;
    var a, day := i.adapter, i.startedAt / 86_400_000;
    var all := {DaySlot(a, day, 0), DaySlot(a, day, 1), DaySlot(a, day, 2), DaySlot(a, day, 3)};
    DayClaimsAre(w, f, a, day);
    SubsetSize(DayClaims(f, a, day), all);
    assert forall k :: DayClaim(i, k) == DaySlot(a, day, k);
    assert |all| == 4;
    if |DayClaims(f, a, day)| == 4 {
      forall k | 0 <= k < 4 ensures DayClaim(i, k) in f.claims {
        assert DayClaim(i, k) in all && all - DayClaims(f, a, day) == {};
      }
    } else {
      var s :| s in all - DayClaims(f, a, day);
      assert s == DayClaim(i, s.slot) && 0 <= s.slot < 4;
    }
  }

  lemma TakenSteps(w: World, f: Files, p: Process, nonce: nat, x: Script, i: Intent, k: nat)
    requires p.place == ClaimingMinute(i) && MinuteClaim(i) !in f.claims && k <= 4
    requires forall j | 0 <= j < k :: DayClaim(i, j) in f.claims
    ensures Moves(w, p, f, nonce, x, k + 1) == Seen(Claim(f, MinuteClaim(i), i), ClaimingDay(i, k), 0)
  {
    hide Inspect, Parsed, PolicyAllows, Usable, DayOf, MinuteOf;
    if k == 0 {
      assert Moves(w, p, f, nonce, x, 0) == Seen(f, ClaimingMinute(i), 0);
    } else {
      TakenSteps(w, f, p, nonce, x, i, k - 1);
    }
  }

  /**
   A process whose minute is free is granted, by its own steps and with the first free slot, exactly when fewer than
   four claims stand on its source's day; otherwise it finishes with its budget exhausted, and contacts nobody.
   */
  lemma GrantedExactly(w: World, f: Files, p: Process, nonce: nat, x: Script, i: Intent)
    requires FilesOk(w, f) && p.place == ClaimingMinute(i) && MinuteClaim(i) !in f.claims
    ensures |DayClaims(f, i.adapter, i.startedAt / 86_400_000)| < 4 ==>
      exists k: nat | k < 4 :: FirstFree(f, i, k)
        && Moves(w, p, f, nonce, x, k + 2)
           == Seen(Claim(Claim(f, MinuteClaim(i), i), DayClaim(i, k), i), Contacting(i), 0)
    ensures |DayClaims(f, i.adapter, i.startedAt / 86_400_000)| >= 4 ==>
      Moves(w, p, f, nonce, x, 6)
        == Seen(Claim(f, MinuteClaim(i), i), Finishing(i, i.startedAt, Failing(BudgetExhausted)), 0)
  {
    hide FilesOk, Inspect, Parsed, PolicyAllows, Usable, DayOf, MinuteOf, DayClaims;
    FreeSlot(w, f, i);
    if |DayClaims(f, i.adapter, i.startedAt / 86_400_000)| < 4 {
      var k := Earliest(f, i, 0);
      TakenSteps(w, f, p, nonce, x, i, k);
      assert Moves(w, p, f, nonce, x, k + 2)
        == Seen(Claim(Claim(f, MinuteClaim(i), i), DayClaim(i, k), i), Contacting(i), 0);
    } else {
      TakenSteps(w, f, p, nonce, x, i, 4);
    }
  }

  lemma Earliest(f: Files, i: Intent, from: nat) returns (k: nat)
    requires forall j | 0 <= j < from :: DayClaim(i, j) in f.claims
    requires exists j | from <= j < 4 :: DayClaim(i, j) !in f.claims
    ensures k < 4 && FirstFree(f, i, k)
    decreases 4 - from
  {
    k := from;
    if DayClaim(i, from) in f.claims { k := Earliest(f, i, from + 1); }
  }
}
