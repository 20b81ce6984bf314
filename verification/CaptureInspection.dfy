/**
 What reading back a capture accepts (src/acquisition/store.ts), on any files whatever, tampered with or not: it
 reports a history exactly when every part of it is whole.
 */
module CaptureInspection {
  import opened Basics
  import opened Ordering
  import opened CaptureStore

  /** An intent in its own place, under the registration its source has, made while that policy allowed it. */
  predicate IntentWhole(w: World, files: Files, key: Key, i: Intent) {
    && key in files.intents && files.intents[key] == i
    && i.adapter == key.adapter && i.request.id == key.id
    && i.registration == w.registration(i.adapter, i.request)
    && i.registration.from <= i.startedAt < i.registration.until
    && i.registration.ingest && i.registration.derive
  }

  predicate OwnsMinute(files: Files, i: Intent) {
    var slot := MinuteSlot(i.adapter, i.startedAt / 86_400_000, i.startedAt % 86_400_000 / 60_000);
    slot in files.claims && files.claims[slot] == i
  }

  predicate OwnsDaySlot(files: Files, i: Intent, k: int) {
    var slot := DaySlot(i.adapter, i.startedAt / 86_400_000, k);
    slot in files.claims && files.claims[slot] == i
  }

  /** The minute of its start, and one of the day's four slots. */
  predicate BudgetWhole(files: Files, i: Intent) {
    OwnsMinute(files, i) && exists k | 0 <= k < 4 :: OwnsDaySlot(files, i, k)
  }

  /** The minute is another's; or its own, and every slot of the day another's. */
  predicate DenialWhole(files: Files, i: Intent) {
    && MinuteSlot(i.adapter, i.startedAt / 86_400_000, i.startedAt % 86_400_000 / 60_000) in files.claims
    && (OwnsMinute(files, i) ==> forall k | 0 <= k < 4 ::
          DaySlot(i.adapter, i.startedAt / 86_400_000, k) in files.claims && !OwnsDaySlot(files, i, k))
  }

  /** Stored bytes of a permitted size and media, admitted by the intent's own policy, no earlier than it. */
  predicate EvidenceWhole(w: World, files: Files, i: Intent, a: Acquisition) {
    && 1 <= |a.content| <= 8_388_608 && |a.content| <= w.maxBytes(i.adapter, i.request)
    && a.content in files.objects && w.accepts(i.adapter, a.media)
    && a.registration == i.registration && i.registration.ingest
    && i.registration.from <= a.capturedAt < i.registration.until && i.startedAt <= a.capturedAt
    && BudgetWhole(files, i)
  }

  predicate ReceiptWhole(w: World, files: Files, i: Intent, r: Receipt, a: Option<Acquisition>) {
    && r.intent == i && i.startedAt <= r.finishedAt
    && match r.result
       case Result(Failed, Some(FetchFailed), None, None, None) => a == None && BudgetWhole(files, i)
       case Result(Failed, Some(RateLimited), None, None, None) => a == None && BudgetWhole(files, i)
       case Result(Failed, Some(BudgetExhausted), None, None, None) => a == None && DenialWhole(files, i)
       case Result(Captured, None, Some(b), Some(media), Some(seen)) =>
         a == Some(b) && media == b.media && b.capturedAt <= r.finishedAt
         && w.observe(i.adapter, i.request, b.content, b.media) == Some(seen)
       case Result(Quarantined, Some(InvalidResponse), Some(b), Some(media), None) =>
         a == Some(b) && media == b.media && b.capturedAt <= r.finishedAt
         && w.observe(i.adapter, i.request, b.content, b.media) == None
       case _ => false
  }

  /** The history that a key addresses, when there is one and all of it is whole. */
  predicate HistoryWhole(w: World, files: Files, key: Key, i: Intent, r: Option<Receipt>, a: Option<Acquisition>) {
    && Identifier(key.id) && IntentWhole(w, files, key, i)
    && a == (if key.id in files.acquisitions then Some(files.acquisitions[key.id]) else None)
    && r == (if key in files.receipts then Some(files.receipts[key]) else None)
    && (a.Some? ==> EvidenceWhole(w, files, i, a.value))
    && (r.Some? ==> ReceiptWhole(w, files, i, r.value, a))
  }

  lemma BudgetExactly(files: Files, i: Intent)
    ensures BudgetHeld(files, i) <==> BudgetWhole(files, i)
    ensures DenialStands(files, i) <==> DenialWhole(files, i)
  {
    assert forall k :: Holds(files, DayClaim(i, k), i) <==> OwnsDaySlot(files, i, k);
    assert Holds(files, MinuteClaim(i), i) <==> OwnsMinute(files, i);
    assert forall k :: DayClaim(i, k) == DaySlot(i.adapter, i.startedAt / 86_400_000, k);
  }

  lemma ReceiptExactly(w: World, files: Files, i: Intent, r: Receipt, a: Option<Acquisition>)
    requires a.Some? ==> EvidenceWhole(w, files, i, a.value)
    requires PolicyAllows(i.registration, i.startedAt)
    ensures ReceiptMatches(w, files, i, r, a) <==> ReceiptWhole(w, files, i, r, a)
  {
    hide BudgetHeld, DenialStands, BudgetWhole, DenialWhole;
    BudgetExactly(files, i);
  }

  /**
   Whatever has become of the files, a history is reported exactly when all of it is whole: its observations are those
   its source's own parser gives on the stored bytes.
   */
  lemma ReportedExactly(w: World, files: Files, key: Key, i: Intent, r: Option<Receipt>, a: Option<Acquisition>,
                        o: Option<Observations>)
    ensures Inspect(w, files, key) == Present(i, r, a, o) <==>
      HistoryWhole(w, files, key, i, r, a)
      && o == if r.Some? && r.value.result.outcome != Failed
           then w.observe(i.adapter, i.request, a.value.content, a.value.media) else None
  {
    hide ReceiptMatches, ReceiptWhole, BudgetHeld, BudgetWhole, Identifier;
    if key in files.intents {
      var j := files.intents[key];
      var b := if key.id in files.acquisitions then Some(files.acquisitions[key.id]) else None;
      BudgetExactly(files, j);
      if b.None? || EvidenceWhole(w, files, j, b.value) {
        if key in files.receipts && PolicyAllows(j.registration, j.startedAt) {
          ReceiptExactly(w, files, j, files.receipts[key], b);
        }
      }
    }
  }

  /** Nothing is reported of a key exactly when nothing at all is stored under it. */
  lemma AbsentExactly(w: World, files: Files, key: Key)
    ensures Inspect(w, files, key) == Absent <==>
      Identifier(key.id) && key !in files.intents && key !in files.receipts && key.id !in files.acquisitions
  {
    hide ReceiptMatches, BudgetHeld, Identifier;
  }
}
