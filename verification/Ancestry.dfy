/**
 What a derived artifact rests on (src/db/discoveryLedger.ts), and the two recursive queries the dossier
 guards run over it: the records an artifact reads at any depth, and the artifacts that read a record.
 */
module Ancestry {
  type Instant = int

  datatype Read = Source(record: string) | Derived(artifact: string)
  datatype Input = Input(artifact: string, read: Read)

  /** A chain of artifacts, each reading the next. */
  ghost predicate Chain(inputs: set<Input>, p: seq<string>) {
    p != [] && forall i | 0 <= i < |p| - 1 :: Input(p[i], Derived(p[i + 1])) in inputs
  }

  /** The record is read by the artifact or by something it was computed over, at any depth. */
  ghost predicate RestsOn(inputs: set<Input>, artifact: string, record: string) {
    exists p :: ChainTo(inputs, artifact, p, record)
  }

  ghost predicate ChainTo(inputs: set<Input>, artifact: string, p: seq<string>, record: string) {
    Chain(inputs, p) && p[0] == artifact && Input(p[|p| - 1], Source(record)) in inputs
  }

  lemma ChainPrepend(inputs: set<Input>, artifact: string, next: string, p: seq<string>, record: string)
    requires Input(artifact, Derived(next)) in inputs && ChainTo(inputs, next, p, record)
    ensures ChainTo(inputs, artifact, [artifact] + p, record)
  {
    var q := [artifact] + p;
    forall i | 0 <= i < |q| - 1 ensures Input(q[i], Derived(q[i + 1])) in inputs {
      if i > 0 { assert q[i] == p[i - 1]; }
    }
  }

  /** An artifact rests on a record exactly when it reads it or reads an artifact that rests on it. */
  lemma RestsOnStep(inputs: set<Input>, artifact: string, record: string)
    ensures RestsOn(inputs, artifact, record) <==>
      Input(artifact, Source(record)) in inputs || exists i | i in inputs :: RestsThrough(inputs, i, artifact, record)
  {
    if RestsOn(inputs, artifact, record) {
      var p :| ChainTo(inputs, artifact, p, record);
      if |p| > 1 {
        var i := Input(p[0], Derived(p[1]));
        assert ChainTo(inputs, p[1], p[1..], record);
        assert i in inputs && RestsThrough(inputs, i, artifact, record);
      }
    }
    if Input(artifact, Source(record)) in inputs { assert ChainTo(inputs, artifact, [artifact], record); }
    if i :| i in inputs && RestsThrough(inputs, i, artifact, record) {
      var p :| ChainTo(inputs, i.read.artifact, p, record);
      ChainPrepend(inputs, artifact, i.read.artifact, p, record);
    }
  }

  ghost predicate RestsThrough(inputs: set<Input>, i: Input, artifact: string, record: string) {
    i.artifact == artifact && i.read.Derived? && RestsOn(inputs, i.read.artifact, record)
  }

  /* The recursive queries: start from a base, extend by one step, keep what is new, stop when nothing is. */

  lemma {:induction false} ReadersClosed(inputs: set<Input>, seen: set<string>, artifact: string, p: seq<string>,
      record: string)
    requires forall i | i in inputs && i.read == Source(record) :: i.artifact in seen
    requires forall i | i in inputs && i.read.Derived? && i.read.artifact in seen :: i.artifact in seen
    requires ChainTo(inputs, artifact, p, record)
    ensures artifact in seen
    decreases |p|
  {
    if |p| > 1 {
      assert ChainTo(inputs, p[1], p[1..], record);
      ReadersClosed(inputs, seen, p[1], p[1..], record);
      assert Input(p[0], Derived(p[1])) in inputs;
    } else {
      assert Input(p[0], Source(record)) in inputs;
    }
  }

  function ReadersOf(inputs: set<Input>, working: set<string>): set<string> {
    set i | i in inputs && i.read.Derived? && i.read.artifact in working :: i.artifact
  }

  lemma ReadersRest(inputs: set<Input>, working: set<string>, record: string)
    requires forall a | a in working :: RestsOn(inputs, a, record)
    ensures forall a | a in ReadersOf(inputs, working) :: RestsOn(inputs, a, record)
  {
    forall a | a in ReadersOf(inputs, working) ensures RestsOn(inputs, a, record) {
      var i :| i in inputs && i.read.Derived? && i.read.artifact in working && i.artifact == a;
      assert RestsThrough(inputs, i, a, record);
      RestsOnStep(inputs, a, record);
    }
  }

  lemma ReadersComplete(inputs: set<Input>, seen: set<string>, record: string)
    requires DirectReaders(inputs, record) <= seen && ReadersOf(inputs, seen) <= seen
    ensures forall a | RestsOn(inputs, a, record) :: a in seen
  {
    forall a | RestsOn(inputs, a, record) ensures a in seen {
      var p :| ChainTo(inputs, a, p, record);
      forall i | i in inputs && i.read.Derived? && i.read.artifact in seen ensures i.artifact in seen {
        assert i.artifact in ReadersOf(inputs, seen);
      }
      forall i | i in inputs && i.read == Source(record) ensures i.artifact in seen {
        assert i.artifact in DirectReaders(inputs, record);
      }
      ReadersClosed(inputs, seen, a, p, record);
    }
  }

  function DirectReaders(inputs: set<Input>, record: string): set<string> {
    set i | i in inputs && i.read == Source(record) :: i.artifact
  }

  lemma DirectReadersRest(inputs: set<Input>, record: string)
    ensures forall a | a in DirectReaders(inputs, record) :: RestsOn(inputs, a, record)
  {
    forall a | a in DirectReaders(inputs, record) ensures RestsOn(inputs, a, record) { RestsOnStep(inputs, a, record); }
  }

  lemma ReadersOfUnion(inputs: set<Input>, a: set<string>, b: set<string>)
    ensures ReadersOf(inputs, a + b) == ReadersOf(inputs, a) + ReadersOf(inputs, b)
    ensures ReadersOf(inputs, {}) == {}
  {
  }

  lemma Grows<T>(all: set<T>, seen: set<T>, next: set<T>)
    requires seen <= all && next <= all && seen !! next && next != {}
    ensures all - (seen + next) < all - seen
  {
    var x :| x in next;
    assert x in all - seen;
  }

  /** Backward: every artifact the record reaches. */
  method Readers(inputs: set<Input>, record: string) returns (readers: set<string>)
    ensures forall a :: a in readers <==> RestsOn(inputs, a, record)
  {
    hide RestsOn, ReadersOf;
    ghost var all := DirectReaders(inputs, record)
      + ReadersOf(inputs, set i | i in inputs && i.read.Derived? :: i.read.artifact);
    readers := DirectReaders(inputs, record);
    var working := readers;
    DirectReadersRest(inputs, record);
    ReadersOfUnion(inputs, {}, {});
    assert readers - working == {};
    while working != {}
      invariant working <= readers <= all && DirectReaders(inputs, record) <= readers
      invariant forall a | a in readers :: RestsOn(inputs, a, record)
      invariant ReadersOf(inputs, readers - working) <= readers
      decreases all - readers, working
    {
      var next := ReadersOf(inputs, working) - readers;
      ReadersRest(inputs, working, record);
      ReadersOfUnion(inputs, readers - working, working);
      assert readers - working + working == readers;
      ReadersBounded(inputs, working);
      if next != {} { Grows(all, readers, next); }
      assert readers + next - next == readers;
      readers, working := readers + next, next;
    }
    assert readers - {} == readers;
    ReadersComplete(inputs, readers, record);
  }

  lemma ReadersBounded(inputs: set<Input>, working: set<string>)
    ensures ReadersOf(inputs, working) <= ReadersOf(inputs, set i | i in inputs && i.read.Derived? :: i.read.artifact)
  {
  }

  lemma {:induction false} ReadsClosed(inputs: set<Input>, seen: set<Read>, artifact: string, p: seq<string>,
      record: string)
    requires forall i | i in inputs && i.artifact == artifact :: i.read in seen
    requires forall i | i in inputs && Derived(i.artifact) in seen :: i.read in seen
    requires ChainTo(inputs, artifact, p, record)
    ensures Source(record) in seen
    decreases |p|
  {
    if |p| > 1 {
      assert Input(p[0], Derived(p[1])) in inputs;
      assert ChainTo(inputs, p[1], p[1..], record);
      ReadsClosed(inputs, seen, p[1], p[1..], record);
    }
  }

  ghost predicate Under(inputs: set<Input>, artifact: string, read: Read) {
    forall record :: (read == Source(record) || (read.Derived? && RestsOn(inputs, read.artifact, record)))
      ==> RestsOn(inputs, artifact, record)
  }

  lemma UnderStep(inputs: set<Input>, artifact: string, reader: string, i: Input)
    requires i in inputs && i.artifact == reader && (reader == artifact || Under(inputs, artifact, Derived(reader)))
    ensures Under(inputs, artifact, i.read)
  {
    forall record | i.read == Source(record) || (i.read.Derived? && RestsOn(inputs, i.read.artifact, record))
      ensures RestsOn(inputs, artifact, record)
    {
      if i.read.Derived? { assert RestsThrough(inputs, i, reader, record); }
      RestsOnStep(inputs, reader, record);
    }
  }

  /** Forward: every record the artifact rests on. */
  method RecordsUnder(inputs: set<Input>, artifact: string) returns (records: set<string>)
    ensures forall r :: r in records <==> RestsOn(inputs, artifact, r)
  {
    ghost var all := set i | i in inputs :: i.read;
    var rows := set i | i in inputs && i.artifact == artifact :: i.read;
    var working := rows;
    forall r | r in rows ensures Under(inputs, artifact, r) {
      var i :| i in inputs && i.artifact == artifact && i.read == r;
      UnderStep(inputs, artifact, artifact, i);
    }
    while working != {}
      invariant working <= rows <= all
      invariant forall r | r in rows :: Under(inputs, artifact, r)
      invariant forall i | i in inputs && i.artifact == artifact :: i.read in rows
      invariant forall i | i in inputs && Derived(i.artifact) in rows - working :: i.read in rows
      decreases all - rows, working
    {
      var next := (set i | i in inputs && Derived(i.artifact) in working :: i.read) - rows;
      forall r | r in next ensures Under(inputs, artifact, r) {
        var i :| i in inputs && Derived(i.artifact) in working && i.read == r;
        UnderStep(inputs, artifact, i.artifact, i);
      }
      if next != {} { Grows(all, rows, next); }
      rows, working := rows + next, next;
    }
    records := set r | r in rows && r.Source? :: r.record;
    forall r ensures r in records <==> RestsOn(inputs, artifact, r) {
      if r in records { assert Source(r) in rows && Under(inputs, artifact, Source(r)); }
      if RestsOn(inputs, artifact, r) {
        var p :| ChainTo(inputs, artifact, p, r);
        ReadsClosed(inputs, rows, artifact, p, r);
      }
    }
  }

  /** Strictly earlier inputs make the ancestry acyclic at every depth. */
  lemma {:induction false} NoArtifactIsItsOwnAncestor(inputs: set<Input>, computedAt: map<string, Instant>,
      p: seq<string>)
    requires forall i | i in inputs && i.read.Derived? ::
      i.artifact in computedAt && i.read.artifact in computedAt && computedAt[i.read.artifact] < computedAt[i.artifact]
    requires Chain(inputs, p) && |p| > 1
    ensures p[0] in computedAt && p[|p| - 1] in computedAt && computedAt[p[|p| - 1]] < computedAt[p[0]]
      && p[0] != p[|p| - 1]
  {
    assert Input(p[0], Derived(p[1])) in inputs;
    if |p| > 2 { NoArtifactIsItsOwnAncestor(inputs, computedAt, p[1..]); }
  }

  /** The artifact itself, or one it was computed over at any depth. */
  ghost predicate Beneath(inputs: set<Input>, artifact: string, other: string) {
    exists q :: Chain(inputs, q) && q[0] == artifact && q[|q| - 1] == other
  }

  /** Inputs added only to artifacts outside an artifact's ancestry leave what it rests on unchanged. */
  lemma {:induction false} NewInputsElsewhere(inputs: set<Input>, more: set<Input>, artifact: string, p: seq<string>,
      record: string)
    requires inputs <= more
    requires forall i | i in more - inputs :: !Beneath(inputs, artifact, i.artifact)
    requires ChainTo(more, artifact, p, record)
    ensures ChainTo(inputs, artifact, p, record)
  {
    ChainStays(inputs, more, artifact, p, |p|);
    assert p[..|p|] == p;
    assert Beneath(inputs, artifact, p[|p| - 1]);
    assert Input(p[|p| - 1], Source(record)) in inputs;
  }

  lemma {:induction false} ChainStays(inputs: set<Input>, more: set<Input>, artifact: string, p: seq<string>, n: nat)
    requires inputs <= more && 0 < n <= |p|
    requires forall i | i in more - inputs :: !Beneath(inputs, artifact, i.artifact)
    requires Chain(more, p) && p[0] == artifact
    ensures Chain(inputs, p[..n])
  {
    if n > 1 {
      ChainStays(inputs, more, artifact, p, n - 1);
      var q, i := p[..n - 1], Input(p[n - 2], Derived(p[n - 1]));
      assert i in more;
      assert Beneath(inputs, artifact, p[n - 2]);
      assert i in inputs;
      forall k | 0 <= k < n - 1 ensures Input(p[..n][k], Derived(p[..n][k + 1])) in inputs {
        if k < n - 2 { assert Input(q[k], Derived(q[k + 1])) in inputs; }
      }
    }
  }
}
