/**
 The branches of a measurement (src/compute/clearance-voi.ts): one for every way the joint outcomes can look through
 the selected actions, each with all the joint outcomes that look so.
 */
module ClearanceGroups {
  import opened Basics
  import opened RealSums
  import opened Ordering
  import opened Clearance

  /** A group holds, in order, exactly the joint outcomes that show its key. */
  ghost predicate Holds(m: Model, selected: seq<nat>, g: Group, n: nat)
    requires Shaped(m, selected) && n <= |m.joints|
  {
    && (forall j: nat :: j in g.columns <==> j < n && KeyOf(m, selected, j) == g.key)
    && forall c, d | 0 <= c < d < |g.columns| :: g.columns[c] < g.columns[d]
  }

  ghost predicate Grouped(m: Model, selected: seq<nat>, gs: seq<Group>, n: nat)
    requires Shaped(m, selected) && n <= |m.joints|
  {
    && (forall i, j | 0 <= i < j < |gs| :: gs[i].key != gs[j].key)
    && (forall i | 0 <= i < |gs| :: gs[i].columns != [] && Holds(m, selected, gs[i], n))
    && (forall j: nat | j < n :: exists i | 0 <= i < |gs| :: gs[i].key == KeyOf(m, selected, j))
  }

  lemma HoldsLonger(m: Model, selected: seq<nat>, g: Group, n: nat)
    requires Shaped(m, selected) && n < |m.joints| && Holds(m, selected, g, n)
    ensures KeyOf(m, selected, n) != g.key ==> Holds(m, selected, g, n + 1)
    ensures KeyOf(m, selected, n) == g.key ==> Holds(m, selected, Group(g.key, g.columns + [n]), n + 1)
  {
    hide KeyOf;
    forall c | 0 <= c < |g.columns| ensures g.columns[c] < n { assert g.columns[c] in g.columns; }
  }

  lemma FirstHolds(m: Model, selected: seq<nat>, n: nat)
    requires Shaped(m, selected) && n < |m.joints|
    requires forall j: nat | j < n :: KeyOf(m, selected, j) != KeyOf(m, selected, n)
    ensures Holds(m, selected, Group(KeyOf(m, selected, n), [n]), n + 1)
  {
    hide KeyOf;
  }

  lemma AddToGroups(m: Model, selected: seq<nat>, gs: seq<Group>, n: nat)
    requires Shaped(m, selected) && n < |m.joints| && Grouped(m, selected, gs, n)
    ensures Grouped(m, selected, AddTo(gs, KeyOf(m, selected, n), n), n + 1)
  {
    hide KeyOf, Holds;
    var key := KeyOf(m, selected, n);
    var after, at := AddTo(gs, key, n), IndexOf(gs, key);
    forall i | 0 <= i < |gs| ensures i != at ==> gs[i].key != key {
      if i > at { assert gs[at].key != gs[i].key; }
    }
    forall i | 0 <= i < |after| ensures after[i].columns != [] && Holds(m, selected, after[i], n + 1) {
      if i < |gs| {
        HoldsLonger(m, selected, gs[i], n);
      } else {
        forall j: nat | j < n ensures KeyOf(m, selected, j) != key {
          var k :| 0 <= k < |gs| && gs[k].key == KeyOf(m, selected, j);
        }
        FirstHolds(m, selected, n);
      }
    }
    forall j: nat | j < n + 1 ensures exists i | 0 <= i < |after| :: after[i].key == KeyOf(m, selected, j) {
      if j < n {
        var k :| 0 <= k < |gs| && gs[k].key == KeyOf(m, selected, j);
        assert after[k].key == gs[k].key;
      } else {
        assert after[at].key == key;
      }
    }
  }

  /** The groups the enumeration forms are the ways the joint outcomes look, each held whole. */
  lemma {:induction false} GroupsAreExact(m: Model, selected: seq<nat>, n: nat)
    requires Shaped(m, selected) && n <= |m.joints|
    ensures Grouped(m, selected, GroupsOf(m, selected, n), n)
  {
    hide KeyOf, AddTo, Holds;
    if n > 0 {
      GroupsAreExact(m, selected, n - 1);
      AddToGroups(m, selected, GroupsOf(m, selected, n - 1), n - 1);
    }
  }
}
