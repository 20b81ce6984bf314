/**
 Comparison and sorting, shared by every component that orders records by identifier.
 A comparison returns a negative, zero or positive integer, as the repository's comparators do.
 */
module Ordering {
  ghost predicate TotalOrder<T(!new)>(cmp: (T, T) -> int) {
    && (forall x, y :: cmp(x, y) == 0 <==> x == y)
    && (forall x, y :: cmp(x, y) < 0 <==> cmp(y, x) > 0)
    && (forall x, y, z :: cmp(x, y) < 0 && cmp(y, z) < 0 ==> cmp(x, z) < 0)
  }

  /** Lexicographic comparison: the first difference decides, and a proper prefix comes first. */
  function Lex<T>(cmp: (T, T) -> int, a: seq<T>, b: seq<T>): int {
    if a == [] || b == [] then |a| - |b|
    else if cmp(a[0], b[0]) != 0 then cmp(a[0], b[0])
    else Lex(cmp, a[1..], b[1..])
  }

  lemma {:induction false} LexZero<T(!new)>(cmp: (T, T) -> int, a: seq<T>, b: seq<T>)
    requires TotalOrder(cmp)
    ensures Lex(cmp, a, b) == 0 <==> a == b
  {
    if a != [] && b != [] && cmp(a[0], b[0]) == 0 {
      LexZero(cmp, a[1..], b[1..]);
      assert a == [a[0]] + a[1..] && b == [b[0]] + b[1..];
    }
  }

  lemma {:induction false} LexFlip<T(!new)>(cmp: (T, T) -> int, a: seq<T>, b: seq<T>)
    requires TotalOrder(cmp)
    ensures Lex(cmp, a, b) < 0 <==> Lex(cmp, b, a) > 0
  {
    if a != [] && b != [] && cmp(a[0], b[0]) == 0 {
      LexFlip(cmp, a[1..], b[1..]);
    }
  }

  lemma {:induction false} LexTransitive<T(!new)>(cmp: (T, T) -> int, a: seq<T>, b: seq<T>, c: seq<T>)
    requires TotalOrder(cmp)
    requires Lex(cmp, a, b) < 0 && Lex(cmp, b, c) < 0
    ensures Lex(cmp, a, c) < 0
  {
    if a != [] && b != [] && c != [] && cmp(a[0], b[0]) == 0 && cmp(b[0], c[0]) == 0 {
      LexTransitive(cmp, a[1..], b[1..], c[1..]);
    }
  }

  /** Lexicographic comparison over a total order is a total order on sequences. */
  lemma LexIsTotal<T(!new)>(cmp: (T, T) -> int)
    requires TotalOrder(cmp)
    ensures TotalOrder((a: seq<T>, b: seq<T>) => Lex(cmp, a, b))
  {
    var lex := (a: seq<T>, b: seq<T>) => Lex(cmp, a, b);
    forall a: seq<T>, b: seq<T> ensures lex(a, b) == 0 <==> a == b { LexZero(cmp, a, b); }
    forall a: seq<T>, b: seq<T> ensures lex(a, b) < 0 <==> lex(b, a) > 0 { LexFlip(cmp, a, b); }
    forall a: seq<T>, b: seq<T>, c: seq<T> | lex(a, b) < 0 && lex(b, c) < 0 ensures lex(a, c) < 0 {
      LexTransitive(cmp, a, b, c);
    }
  }

  /** Appending keeps an order that was decided before either sequence ended. */
  lemma {:induction false} LexAppend<T(!new)>(cmp: (T, T) -> int, a: seq<T>, b: seq<T>, x: seq<T>, y: seq<T>)
    requires TotalOrder(cmp)
    requires Lex(cmp, a, b) < 0 && !(a <= b)
    ensures Lex(cmp, a + x, b + y) < 0
  {
    assert a != [] && b != [];
    assert (a + x)[0] == a[0] && (b + y)[0] == b[0];
    if cmp(a[0], b[0]) == 0 {
      assert (a + x)[1..] == a[1..] + x && (b + y)[1..] == b[1..] + y;
      assert a == [a[0]] + a[1..] && b == [b[0]] + b[1..];
      LexAppend(cmp, a[1..], b[1..], x, y);
    }
  }

  function CompareChar(a: char, b: char): int { a as int - b as int }

  /** The order of identifiers: code unit by code unit. */
  function CompareId(a: string, b: string): int { Lex(CompareChar, a, b) }

  /** The order of identifier lists: identifier by identifier, the shorter first on a tie. */
  function CompareIds(a: seq<string>, b: seq<string>): int { Lex(CompareId, a, b) }

  lemma IdOrderIsTotal()
    ensures TotalOrder(CompareId)
  {
    assert TotalOrder(CompareChar);
    LexIsTotal(CompareChar);
    var lex := (a: string, b: string) => Lex(CompareChar, a, b);
    forall a: string, b: string ensures CompareId(a, b) == lex(a, b) {}
  }

  lemma IdListOrderIsTotal()
    ensures TotalOrder(CompareIds)
  {
    IdOrderIsTotal();
    LexIsTotal(CompareId);
    var lex := (a: seq<string>, b: seq<string>) => Lex(CompareId, a, b);
    forall a: seq<string>, b: seq<string> ensures CompareIds(a, b) == lex(a, b) {}
  }

  /** The first difference decides by `less`, and a proper prefix comes first. */
  ghost predicate FirstDifference<T(!new)>(less: (T, T) -> bool, a: seq<T>, b: seq<T>) {
    exists k | 0 <= k <= |a| && k < |b| :: a[..k] == b[..k] && (k == |a| || less(a[k], b[k]))
  }

  lemma {:induction false} LexExactly<T(!new)>(cmp: (T, T) -> int, less: (T, T) -> bool, a: seq<T>, b: seq<T>)
    requires TotalOrder(cmp) && forall x, y :: cmp(x, y) < 0 <==> less(x, y)
    ensures Lex(cmp, a, b) < 0 <==> FirstDifference(less, a, b)
  {
    if a == [] {
      assert a[..0] == b[..0];
    } else if b != [] {
      LexExactly(cmp, less, a[1..], b[1..]);
      if a[0] == b[0] {
        assert a == [a[0]] + a[1..] && b == [a[0]] + b[1..];
        if FirstDifference(less, a, b) { DifferenceInTail(less, a[0], a[1..], b[1..]); }
        if FirstDifference(less, a[1..], b[1..]) { DifferenceAfterHead(less, a[0], a[1..], b[1..]); }
      } else {
        if FirstDifference(less, a, b) {
          var k :| 0 <= k <= |a| && k < |b| && a[..k] == b[..k] && (k == |a| || less(a[k], b[k]));
          if k > 0 { SameHead(a, b, k); }
        }
        assert a[..0] == b[..0];
      }
    }
  }

  lemma SameHead<T>(a: seq<T>, b: seq<T>, k: nat)
    requires 0 < k <= |a| && k <= |b| && a[..k] == b[..k]
    ensures a[0] == b[0]
  {
    assert a[..k][0] == b[..k][0];
  }

  lemma DifferenceInTail<T(!new)>(less: (T, T) -> bool, x: T, c: seq<T>, d: seq<T>)
    requires !less(x, x) && FirstDifference(less, [x] + c, [x] + d)
    ensures FirstDifference(less, c, d)
  {
    var a, b := [x] + c, [x] + d;
    var k :| 0 <= k <= |a| && k < |b| && a[..k] == b[..k] && (k == |a| || less(a[k], b[k]));
    assert k > 0;
    assert c[..k - 1] == a[..k][1..] && d[..k - 1] == b[..k][1..];
  }

  lemma DifferenceAfterHead<T(!new)>(less: (T, T) -> bool, x: T, c: seq<T>, d: seq<T>)
    requires FirstDifference(less, c, d)
    ensures FirstDifference(less, [x] + c, [x] + d)
  {
    var a, b := [x] + c, [x] + d;
    var k :| 0 <= k <= |c| && k < |d| && c[..k] == d[..k] && (k == |c| || less(c[k], d[k]));
    assert a[..k + 1] == [x] + c[..k] && b[..k + 1] == [x] + d[..k];
  }

  ghost predicate IdBefore(a: string, b: string) { FirstDifference((c: char, d: char) => c < d, a, b) }

  ghost predicate IdsBefore(a: seq<string>, b: seq<string>) {
    FirstDifference((c: string, d: string) => IdBefore(c, d), a, b)
  }

  /** Identifiers compare by their code units, ascending. */
  lemma IdOrderIsAscending(a: string, b: string)
    ensures CompareId(a, b) < 0 <==> IdBefore(a, b)
  {
    LexExactly(CompareChar, (c: char, d: char) => c < d, a, b);
  }

  lemma IdListOrderIsAscending(a: seq<string>, b: seq<string>)
    ensures CompareIds(a, b) < 0 <==> IdsBefore(a, b)
  {
    var less := (c: string, d: string) => IdBefore(c, d);
    IdOrderIsTotal();
    forall c: string, d: string ensures CompareId(c, d) < 0 <==> less(c, d) { IdOrderIsAscending(c, d); }
    LexExactly(CompareId, less, a, b);
  }

  predicate IdentifierChar(c: char) {
    'A' <= c <= 'Z' || 'a' <= c <= 'z' || '0' <= c <= '9' || c == '_' || c == '-'
  }

  /** The ends of the permitted ranges are in, and what borders them, or separates paths, is out. */
  lemma IdentifierAlphabet(c: char)
    ensures c in "AZaz09_-" ==> IdentifierChar(c)
    ensures c in "@[`{/:. \\" ==> !IdentifierChar(c)
  {
  }

  /** The closed identifier shape of compute inputs, schedules and captures. */
  predicate Identifier(s: string) {
    1 <= |s| <= 80 && forall c | c in s :: IdentifierChar(c)
  }

  ghost predicate Distinct<T>(s: seq<T>) {
    forall i, j :: 0 <= i < j < |s| ==> s[i] != s[j]
  }

  /** Any two elements are ordered, and order is transitive; distinct elements may tie. */
  ghost predicate Preorder<T(!new)>(cmp: (T, T) -> int) {
    && (forall x, y :: cmp(x, y) > 0 ==> cmp(y, x) <= 0)
    && (forall x, y, z :: cmp(x, y) <= 0 && cmp(y, z) <= 0 ==> cmp(x, z) <= 0)
  }

  ghost predicate Ascending<T>(cmp: (T, T) -> int, s: seq<T>) {
    forall i, j :: 0 <= i < j < |s| ==> cmp(s[i], s[j]) <= 0
  }

  function Insert<T>(cmp: (T, T) -> int, x: T, s: seq<T>): (r: seq<T>)
    ensures multiset(r) == multiset(s) + multiset{x}
  {
    if s == [] || cmp(x, s[0]) <= 0 then
      [x] + s
    else
      assert s == [s[0]] + s[1..];
      [s[0]] + Insert(cmp, x, s[1..])
  }

  /** A stable sort. */
  function Sort<T>(cmp: (T, T) -> int, s: seq<T>): (r: seq<T>)
    ensures multiset(r) == multiset(s)
  {
    if s == [] then []
    else
      assert s == [s[0]] + s[1..];
      Insert(cmp, s[0], Sort(cmp, s[1..]))
  }

  ghost predicate Before<T>(cmp: (T, T) -> int, x: T, s: seq<T>) {
    forall j :: 0 <= j < |s| ==> cmp(x, s[j]) <= 0
  }

  lemma BeforeThrough<T(!new)>(cmp: (T, T) -> int, x: T, y: T, s: seq<T>)
    requires Preorder(cmp) && cmp(x, y) <= 0 && Before(cmp, y, s)
    ensures Before(cmp, x, s)
  {
  }

  lemma {:induction false} InsertBefore<T(!new)>(cmp: (T, T) -> int, y: T, x: T, s: seq<T>)
    requires cmp(y, x) <= 0 && Before(cmp, y, s)
    ensures Before(cmp, y, Insert(cmp, x, s))
  {
    if s != [] && cmp(x, s[0]) > 0 { InsertBefore(cmp, y, x, s[1..]); }
  }

  lemma AscendingCons<T(!new)>(cmp: (T, T) -> int, x: T, s: seq<T>)
    ensures Ascending(cmp, [x] + s) <==> Before(cmp, x, s) && Ascending(cmp, s)
  {
    var r := [x] + s;
    if Ascending(cmp, r) {
      forall j | 0 <= j < |s| ensures cmp(x, s[j]) <= 0 { assert r[0] == x && r[j + 1] == s[j]; }
      forall i, j | 0 <= i < j < |s| ensures cmp(s[i], s[j]) <= 0 { assert r[i + 1] == s[i] && r[j + 1] == s[j]; }
    }
  }

  lemma {:induction false} InsertSorts<T(!new)>(cmp: (T, T) -> int, x: T, s: seq<T>)
    requires Preorder(cmp) && Ascending(cmp, s)
    ensures Ascending(cmp, Insert(cmp, x, s))
  {
    hide Ascending, Before;
    if s == [] {
      AscendingCons(cmp, x, s);
      assert Before(cmp, x, s) by { NothingAfter(cmp, x, s); }
    } else {
      assert s == [s[0]] + s[1..];
      AscendingCons(cmp, s[0], s[1..]);
      if cmp(x, s[0]) <= 0 {
        FirstThenRest(cmp, x, s);
        AscendingCons(cmp, x, s);
      } else {
        InsertSorts(cmp, x, s[1..]);
        InsertBefore(cmp, s[0], x, s[1..]);
        AscendingCons(cmp, s[0], Insert(cmp, x, s[1..]));
      }
    }
  }

  lemma NothingAfter<T>(cmp: (T, T) -> int, x: T, s: seq<T>)
    requires s == []
    ensures Before(cmp, x, s)
  {
  }

  lemma FirstThenRest<T(!new)>(cmp: (T, T) -> int, x: T, s: seq<T>)
    requires Preorder(cmp) && s != [] && cmp(x, s[0]) <= 0 && Before(cmp, s[0], s[1..])
    ensures Before(cmp, x, s)
  {
    BeforeThrough(cmp, x, s[0], s[1..]);
    assert s == [s[0]] + s[1..];
  }

  lemma {:induction false} SortSorts<T(!new)>(cmp: (T, T) -> int, s: seq<T>)
    requires Preorder(cmp)
    ensures Ascending(cmp, Sort(cmp, s))
  {
    if s != [] {
      SortSorts(cmp, s[1..]);
      InsertSorts(cmp, s[0], Sort(cmp, s[1..]));
    }
  }

  /** What is in order already stays as it is. */
  lemma {:induction false} SortedStays<T(!new)>(cmp: (T, T) -> int, s: seq<T>)
    requires Ascending(cmp, s)
    ensures Sort(cmp, s) == s
  {
    if s != [] {
      assert s == [s[0]] + s[1..];
      forall i, j | 0 <= i < j < |s[1..]| ensures cmp(s[1..][i], s[1..][j]) <= 0 {
        assert s[1..][i] == s[i + 1] && s[1..][j] == s[j + 1];
      }
      SortedStays(cmp, s[1..]);
    }
  }

  lemma TotalIsPreorder<T(!new)>(cmp: (T, T) -> int)
    requires TotalOrder(cmp)
    ensures Preorder(cmp)
  {
  }

  /** Sorted by an identifier read from each element. */
  ghost predicate SortedBy<T>(key: T -> string, s: seq<T>) {
    forall i, j :: 0 <= i < j < |s| ==> CompareId(key(s[i]), key(s[j])) <= 0
  }

  /** The copy sorted by identifier that a caller gets: the same elements, in order. */
  method SortedCopy<T(!new)>(key: T -> string, s: seq<T>) returns (r: seq<T>)
    ensures multiset(r) == multiset(s) && |r| == |s|
    ensures forall x :: x in r <==> x in s
    ensures SortedBy(key, r)
  {
    hide CompareId;
    var cmp := (x: T, y: T) => CompareId(key(x), key(y));
    assert Preorder(cmp) by {
      IdOrderIsTotal();
      TotalIsPreorder(CompareId);
    }
    r := Sort(cmp, s);
    SortSorts(cmp, s);
    SameElements(r, s);
  }

  lemma SameElements<T>(a: seq<T>, b: seq<T>)
    requires multiset(a) == multiset(b)
    ensures |a| == |b|
    ensures forall x :: x in a <==> x in b
  {
    assert |multiset(a)| == |multiset(b)|;
    forall x ensures x in a <==> x in b {
      assert x in a <==> x in multiset(a);
      assert x in b <==> x in multiset(b);
    }
  }

  lemma DistinctCons<T>(x: T, s: seq<T>)
    ensures Distinct([x] + s) <==> x !in s && Distinct(s)
  {
    var r := [x] + s;
    if Distinct(r) {
      forall i, j | 0 <= i < j < |s| ensures s[i] != s[j] { assert r[i + 1] == s[i] && r[j + 1] == s[j]; }
      forall i | 0 <= i < |s| ensures s[i] != x { assert r[i + 1] == s[i] && r[0] == x; }
    }
  }

  lemma {:induction false} DistinctCounts<T>(s: seq<T>)
    ensures Distinct(s) <==> forall x | x in s :: multiset(s)[x] == 1
  {
    if s != [] {
      var rest := s[1..];
      assert s == [s[0]] + rest;
      DistinctCons(s[0], rest);
      DistinctCounts(rest);
      assert multiset(s) == multiset{s[0]} + multiset(rest);
      assert s[0] in rest <==> s[0] in multiset(rest);
      assert forall x | x in rest :: x in s && x in multiset(rest);
      assert forall x | x in s :: x == s[0] || x in rest;
    }
  }

  /** Rearranging keeps what is distinct distinct. */
  lemma DistinctThrough<T>(a: seq<T>, b: seq<T>)
    requires multiset(a) == multiset(b) && Distinct(a)
    ensures Distinct(b)
  {
    DistinctCounts(a);
    DistinctCounts(b);
    SameElements(a, b);
  }
}
