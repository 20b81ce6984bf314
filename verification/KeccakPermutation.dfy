/**
 Keccak-f[1600] on 25 BigInt lanes, in place (src/chain/keccak.ts), against FIPS 202 sections 3.2 and 3.3.
 */
module KeccakPermutation {
  import Spec = KeccakSpec
  import opened BigInts
  import opened KeccakTables

  function Lane(s: seq<int>, x: int, y: int): int
    requires |s| == 25 && 0 <= x < 5 && 0 <= y < 5
  {
    s[x + 5 * y]
  }

  ghost predicate BitShown(s: seq<int>, a: Spec.State, x: int, y: int, z: nat)
    requires |s| == 25 && 0 <= x < 5 && 0 <= y < 5
  {
    Fits(Lane(s, x, y), 64) && Bit(Lane(s, x, y), z) == a(x, y, z)
  }

  /** Twenty-five lanes of 64 bits hold, bit for bit, this state of the standard. */
  ghost predicate Shows(s: seq<int>, a: Spec.State) {
    && |s| == 25
    && forall x, y, z :: 0 <= x < 5 && 0 <= y < 5 && 0 <= z < 64 ==> BitShown(s, a, x, y, z)
  }

  function Column(s: seq<int>, x: int): int
    requires |s| == 25 && 0 <= x < 5
  {
    Xor(Xor(Xor(Xor(Lane(s, x, 0), Lane(s, x, 1)), Lane(s, x, 2)), Lane(s, x, 3)), Lane(s, x, 4))
  }

  function ThetaLane(s: seq<int>, x: int, y: int): int
    requires |s| == 25 && 0 <= x < 5 && 0 <= y < 5
  {
    Xor(Lane(s, x, y), Xor(Column(s, (x + 4) % 5), Rotl(Column(s, (x + 1) % 5), 1)))
  }

  /** The lane that moves to (x, y), turned. */
  function RhoPiLane(s: seq<int>, x: int, y: int): int
    requires |s| == 25 && 0 <= x < 5 && 0 <= y < 5
  {
    var fromX := (x + 3 * y) % 5;
    Rotl(Lane(s, fromX, x), Rotation(fromX, x))
  }

  function ChiLane(b: seq<int>, x: int, y: int): int
    requires |b| == 25 && 0 <= x < 5 && 0 <= y < 5
  {
    Xor(Lane(b, x, y), And(And(Not(Lane(b, (x + 1) % 5, y)), MASK64), Lane(b, (x + 2) % 5, y)))
  }

  lemma ColumnBits(s: seq<int>, a: Spec.State, x: int, z: int)
    requires Shows(s, a) && 0 <= x < 5 && 0 <= z < 64
    ensures Fits(Column(s, x), 64) && Bit(Column(s, x), z) == Spec.Parity(a, x, z)
  {
    hide Bit, Xor, Fits, Lane;
    assert BitShown(s, a, x, 0, z) && BitShown(s, a, x, 1, z) && BitShown(s, a, x, 2, z);
    assert BitShown(s, a, x, 3, z) && BitShown(s, a, x, 4, z);
    var c1 := Xor(Lane(s, x, 0), Lane(s, x, 1));
    var c2 := Xor(c1, Lane(s, x, 2));
    var c3 := Xor(c2, Lane(s, x, 3));
    XorBits(Lane(s, x, 0), Lane(s, x, 1), z);
    XorBits(c1, Lane(s, x, 2), z);
    XorBits(c2, Lane(s, x, 3), z);
    XorBits(c3, Lane(s, x, 4), z);
  }

  lemma XorBits(v: int, w: int, z: nat)
    requires Fits(v, 64) && Fits(w, 64)
    ensures Fits(Xor(v, w), 64) && Bit(Xor(v, w), z) == (Bit(v, z) != Bit(w, z))
  {
    hide Bit, Xor, Fits;
    XorFits(v, w, 64);
    BitXor(v, w, z);
  }

  lemma ThetaLaneBits(s: seq<int>, a: Spec.State, x: int, y: int, z: int)
    requires Shows(s, a) && 0 <= x < 5 && 0 <= y < 5 && 0 <= z < 64
    ensures Fits(ThetaLane(s, x, y), 64) && Bit(ThetaLane(s, x, y), z) == Spec.ThetaBit(a, x, y, z)
  {
    hide Bit, Xor, Fits, Column, Rotl, Lane, Spec.Parity;
    assert BitShown(s, a, x, y, z);
    var left, right := (x + 4) % 5, (x + 1) % 5;
    assert left == (x - 1) % 5;
    ColumnBits(s, a, left, z);
    ColumnBits(s, a, right, (z - 1) % 64);
    RotlBits(Column(s, right), 1, z);
    var turned := Rotl(Column(s, right), 1);
    XorBits(Column(s, left), turned, z);
    XorBits(Lane(s, x, y), Xor(Column(s, left), turned), z);
  }

  lemma RhoPiLaneBits(s: seq<int>, a: Spec.State, x: int, y: int, z: int)
    requires Shows(s, a) && 0 <= x < 5 && 0 <= y < 5 && 0 <= z < 64
    ensures Fits(RhoPiLane(s, x, y), 64) && Bit(RhoPiLane(s, x, y), z) == Spec.PiBit(Spec.Rho(a), x, y, z)
  {
    hide Bit, Fits, Rotl, Rotation, Lane, Spec.RhoOffset, Spec.Rho, Spec.PiBit;
    RhoPiIs(a, x, y, z);
    var fromX := (x + 3 * y) % 5;
    var amount := Rotation(fromX, x);
    RotationsAreTheWalk(fromX, x);
    SameTurn(z, Spec.RhoOffset(fromX, x));
    assert BitShown(s, a, fromX, x, (z - amount) % 64);
    RotlBits(Lane(s, fromX, x), amount, z);
  }

  lemma RhoPiIs(a: Spec.State, x: int, y: int, z: int)
    ensures var fromX := (x + 3 * y) % 5;
      Spec.PiBit(Spec.Rho(a), x, y, z) == a(fromX, x, (z - Spec.RhoOffset(fromX, x)) % 64)
  {
    hide Spec.RhoOffset;
    var fromX := (x + 3 * y) % 5;
    assert Spec.Rho(a)(fromX, x, z) == Spec.RhoBit(a, fromX, x, z);
  }

  lemma SameTurn(z: int, offset: int)
    ensures (z - offset % 64) % 64 == (z - offset) % 64
  {
  }

  lemma ChiLaneBits(b: seq<int>, a: Spec.State, x: int, y: int, z: int)
    requires Shows(b, a) && 0 <= x < 5 && 0 <= y < 5 && 0 <= z < 64
    ensures Fits(ChiLane(b, x, y), 64) && Bit(ChiLane(b, x, y), z) == Spec.ChiBit(a, x, y, z)
  {
    hide Bit, Fits, Xor, And, Not, Lane, Pow2;
    var x1, x2 := (x + 1) % 5, (x + 2) % 5;
    assert BitShown(b, a, x, y, z) && BitShown(b, a, x1, y, z) && BitShown(b, a, x2, y, z);
    var first, second := Lane(b, x1, y), Lane(b, x2, y);
    var flipped := And(Not(first), MASK64);
    BitNot(first, z);
    BitAnd(Not(first), MASK64, z);
    MaskFits();
    MaskBits(64, z);
    AndFits(flipped, second, 64);
    BitAnd(flipped, second, z);
    XorBits(Lane(b, x, y), And(flipped, second), z);
  }

  /* What a loop over the lanes leaves behind: one function of what it read in every lane. */

  function ThetaLanes(s: seq<int>): (t: seq<int>)
    requires |s| == 25
    ensures |t| == 25
  {
    seq(25, i requires 0 <= i < 25 => ThetaLane(s, i % 5, i / 5))
  }

  function RhoPiLanes(s: seq<int>): (t: seq<int>)
    requires |s| == 25
    ensures |t| == 25
  {
    seq(25, i requires 0 <= i < 25 => RhoPiLane(s, i % 5, i / 5))
  }

  function ChiLanes(b: seq<int>): (t: seq<int>)
    requires |b| == 25
    ensures |t| == 25
  {
    seq(25, i requires 0 <= i < 25 => ChiLane(b, i % 5, i / 5))
  }

  lemma ThetaLanesAt(s: seq<int>, x: int, y: int)
    requires |s| == 25 && 0 <= x < 5 && 0 <= y < 5
    ensures ThetaLanes(s)[x + 5 * y] == ThetaLane(s, x, y)
  {
    hide ThetaLane;
    assert (x + 5 * y) % 5 == x && (x + 5 * y) / 5 == y;
  }

  lemma ThetaShows(s: seq<int>, a: Spec.State)
    requires Shows(s, a)
    ensures Shows(ThetaLanes(s), Spec.Theta(a))
  {
    hide Fits, Bit, ThetaLane, ThetaLanes, Spec.ThetaBit;
    var t, b := ThetaLanes(s), Spec.Theta(a);
    forall x, y, z | 0 <= x < 5 && 0 <= y < 5 && 0 <= z < 64 ensures BitShown(t, b, x, y, z) {
      ThetaLaneBits(s, a, x, y, z);
      ThetaLanesAt(s, x, y);
    }
  }

  lemma RhoPiLanesAt(s: seq<int>, x: int, y: int)
    requires |s| == 25 && 0 <= x < 5 && 0 <= y < 5
    ensures RhoPiLanes(s)[x + 5 * y] == RhoPiLane(s, x, y)
  {
    hide RhoPiLane;
    assert (x + 5 * y) % 5 == x && (x + 5 * y) / 5 == y;
  }

  lemma RhoPiShows(s: seq<int>, a: Spec.State)
    requires Shows(s, a)
    ensures Shows(RhoPiLanes(s), Spec.Pi(Spec.Rho(a)))
  {
    hide Fits, Bit, RhoPiLane, RhoPiLanes, Spec.PiBit, Spec.Rho;
    var t, b := RhoPiLanes(s), Spec.Pi(Spec.Rho(a));
    forall x, y, z | 0 <= x < 5 && 0 <= y < 5 && 0 <= z < 64 ensures BitShown(t, b, x, y, z) {
      RhoPiLaneBits(s, a, x, y, z);
      RhoPiLanesAt(s, x, y);
    }
  }

  lemma ChiLanesAt(s: seq<int>, x: int, y: int)
    requires |s| == 25 && 0 <= x < 5 && 0 <= y < 5
    ensures ChiLanes(s)[x + 5 * y] == ChiLane(s, x, y)
  {
    hide ChiLane;
    assert (x + 5 * y) % 5 == x && (x + 5 * y) / 5 == y;
  }

  lemma ChiShows(s: seq<int>, a: Spec.State)
    requires Shows(s, a)
    ensures Shows(ChiLanes(s), Spec.Chi(a))
  {
    hide Fits, Bit, ChiLane, ChiLanes, Spec.ChiBit;
    var t, b := ChiLanes(s), Spec.Chi(a);
    forall x, y, z | 0 <= x < 5 && 0 <= y < 5 && 0 <= z < 64 ensures BitShown(t, b, x, y, z) {
      ChiLaneBits(s, a, x, y, z);
      ChiLanesAt(s, x, y);
    }
  }

  lemma IotaShows(s: seq<int>, a: Spec.State, round: nat)
    requires Shows(s, a) && round < 24
    ensures Shows(s[0 := Xor(s[0], ROUND_CONSTANTS[round])], Spec.Iota(a, round))
  {
    hide Fits, Bit, Xor, Spec.RoundConstantBit;
    var t, b := s[0 := Xor(s[0], ROUND_CONSTANTS[round])], Spec.Iota(a, round);
    forall x, y, z | 0 <= x < 5 && 0 <= y < 5 && 0 <= z < 64 ensures BitShown(t, b, x, y, z) {
      assert BitShown(s, a, x, y, z);
      RoundConstantsAreTheRegister(round, z);
      if x == 0 && y == 0 {
        XorBits(s[0], ROUND_CONSTANTS[round], z);
      }
    }
  }

  /** The order in which a pair of loops writes the lanes. */
  datatype Order = ByColumn | ByRow | BySource

  function Rank(order: Order, i: int): int {
    match order
    case ByColumn => 5 * (i % 5) + i / 5
    case ByRow => i
    case BySource => 5 * ((i % 5 + 3 * (i / 5)) % 5) + i % 5
  }

  lemma RankIsInjective(order: Order, i: int, j: int)
    requires 0 <= i < 25 && 0 <= j < 25 && Rank(order, i) == Rank(order, j)
    ensures i == j
  {
    if order.ByColumn? {
      assert i == 5 * (i / 5) + i % 5 && j == 5 * (j / 5) + j % 5;
      SameDigits(i % 5, i / 5, j % 5, j / 5);
    } else if order.BySource? {
      SameDigits((i % 5 + 3 * (i / 5)) % 5, i % 5, (j % 5 + 3 * (j / 5)) % 5, j % 5);
      var u, v := i / 5, j / 5;
      assert i % 5 == j % 5;
      SameColumn(i % 5, u, v);
    }
  }

  lemma SameDigits(a: int, b: int, c: int, d: int)
    requires 0 <= b < 5 && 0 <= d < 5 && 5 * a + b == 5 * c + d
    ensures a == c && b == d
  {
  }

  lemma SameColumn(c: int, u: int, v: int)
    requires 0 <= u < 5 && 0 <= v < 5 && (c + 3 * u) % 5 == (c + 3 * v) % 5
    ensures u == v
  {
    assert (3 * (u - v)) % 5 == 0;
  }

  /** The lanes of rank below n are written, the others are as they were. */
  ghost predicate Written(order: Order, goal: seq<int>, s: seq<int>, t: seq<int>, n: int) {
    && |goal| == |s| == |t| == 25
    && forall i :: 0 <= i < 25 ==> t[i] == if Rank(order, i) < n then goal[i] else s[i]
  }

  lemma WriteNext(order: Order, goal: seq<int>, s: seq<int>, t: seq<int>, k: int)
    requires Written(order, goal, s, t, Rank(order, k)) && 0 <= k < 25
    ensures t[k] == s[k]
    ensures Written(order, goal, s, t[k := goal[k]], Rank(order, k) + 1)
  {
    hide Rank;
    forall i | 0 <= i < 25 && i != k ensures Rank(order, i) != Rank(order, k) {
      if Rank(order, i) == Rank(order, k) { RankIsInjective(order, i, k); }
    }
  }

  lemma AllWritten(order: Order, goal: seq<int>, s: seq<int>, t: seq<int>)
    requires Written(order, goal, s, t, 25)
    ensures t == goal
  {
    assert forall i :: 0 <= i < 25 ==> Rank(order, i) < 25;
  }

  lemma NoneWritten(order: Order, goal: seq<int>, s: seq<int>)
    requires |goal| == |s| == 25
    ensures Written(order, goal, s, s, 0)
  {
    assert forall i :: 0 <= i < 25 ==> Rank(order, i) >= 0;
  }

  method ColumnParities(lanes: array<int>) returns (c: array<int>)
    requires lanes.Length == 25
    ensures fresh(c) && c.Length == 5 && forall x :: 0 <= x < 5 ==> c[x] == Column(lanes[..], x)
  {
    hide Xor;
    c := new int[5];
    for x := 0 to 5
      invariant forall k :: 0 <= k < x ==> c[k] == Column(lanes[..], k)
    {
      c[x] := Xor(Xor(Xor(Xor(lanes[x], lanes[x + 5]), lanes[x + 10]), lanes[x + 15]), lanes[x + 20]);
    }
  }

  method Theta(lanes: array<int>)
    requires lanes.Length == 25
    modifies lanes
    ensures lanes[..] == ThetaLanes(old(lanes[..]))
  {
    hide Xor, Rotl, Written, Column, Rank, ThetaLanes;
    ghost var s, goal := lanes[..], ThetaLanes(lanes[..]);
    var c := ColumnParities(lanes);
    NoneWritten(ByColumn, goal, s);
    for x := 0 to 5
      invariant forall k :: 0 <= k < 5 ==> c[k] == Column(s, k)
      invariant Written(ByColumn, goal, s, lanes[..], 5 * x)
    {
      var d := Xor(c[(x + 4) % 5], Rotl(c[(x + 1) % 5], 1));
      for y := 0 to 5
        invariant forall k :: 0 <= k < 5 ==> c[k] == Column(s, k)
        invariant Written(ByColumn, goal, s, lanes[..], 5 * x + y)
      {
        ghost var t := lanes[..];
        var k := x + 5 * y;
        RankOf(x, y);
        WriteNext(ByColumn, goal, s, t, k);
        ThetaLanesAt(s, x, y);
        lanes[k] := Xor(lanes[k], d);
        assert lanes[..] == t[k := goal[k]];
      }
    }
    AllWritten(ByColumn, goal, s, lanes[..]);
  }

  lemma RankOf(x: int, y: int)
    requires 0 <= x < 5 && 0 <= y < 5
    ensures (x + 5 * y) % 5 == x && (x + 5 * y) / 5 == y
    ensures Rank(ByColumn, x + 5 * y) == 5 * x + y && Rank(ByRow, x + 5 * y) == x + 5 * y
    ensures Rank(BySource, y + 5 * ((2 * x + 3 * y) % 5)) == 5 * x + y
    ensures (y + 3 * ((2 * x + 3 * y) % 5)) % 5 == x
  {
    var u := (2 * x + 3 * y) % 5;
    assert (y + 5 * u) % 5 == y && (y + 5 * u) / 5 == u;
    BackToSource(x, y);
  }

  lemma BackToSource(x: int, y: int)
    requires 0 <= x < 5
    ensures (y + 3 * ((2 * x + 3 * y) % 5)) % 5 == x
  {
    var q := (2 * x + 3 * y) / 5;
    assert y + 3 * (2 * x + 3 * y - 5 * q) == x + 5 * (x + 2 * y - 3 * q);
  }

  method RhoPi(lanes: array<int>) returns (b: array<int>)
    requires lanes.Length == 25
    ensures fresh(b) && b[..] == RhoPiLanes(lanes[..])
  {
    hide Rotl, Written, Rank, Rotation, RhoPiLanes;
    ghost var s, goal := lanes[..], RhoPiLanes(lanes[..]);
    b := new int[25](_ => 0);
    ghost var empty := b[..];
    NoneWritten(BySource, goal, empty);
    for x := 0 to 5
      invariant b.Length == 25 && Written(BySource, goal, empty, b[..], 5 * x)
    {
      for y := 0 to 5
        invariant b.Length == 25 && Written(BySource, goal, empty, b[..], 5 * x + y)
      {
        ghost var t := b[..];
        var k := y + 5 * ((2 * x + 3 * y) % 5);
        RankOf(x, y);
        WriteNext(BySource, goal, empty, t, k);
        RhoPiLanesAt(s, y, (2 * x + 3 * y) % 5);
        b[k] := Rotl(lanes[x + 5 * y], Rotation(x, y));
        assert b[..] == t[k := goal[k]];
      }
    }
    AllWritten(BySource, goal, empty, b[..]);
  }

  method Chi(lanes: array<int>, b: array<int>)
    requires lanes.Length == 25 && b.Length == 25 && lanes != b
    modifies lanes
    ensures lanes[..] == ChiLanes(b[..])
  {
    hide Xor, And, Not, Written, Rank, ChiLanes;
    ghost var s, goal := lanes[..], ChiLanes(b[..]);
    NoneWritten(ByRow, goal, s);
    for y := 0 to 5
      invariant Written(ByRow, goal, s, lanes[..], 5 * y)
    {
      for x := 0 to 5
        invariant Written(ByRow, goal, s, lanes[..], x + 5 * y)
      {
        ghost var t := lanes[..];
        var k := x + 5 * y;
        RankOf(x, y);
        WriteNext(ByRow, goal, s, t, k);
        ChiLanesAt(b[..], x, y);
        lanes[k] := Xor(b[k], And(And(Not(b[(x + 1) % 5 + 5 * y]), MASK64), b[(x + 2) % 5 + 5 * y]));
        assert lanes[..] == t[k := goal[k]];
      }
    }
    AllWritten(ByRow, goal, s, lanes[..]);
  }

  /** The permutation in place: whatever state of the standard the lanes held, they now hold its Keccak-f. */
  method Permute(lanes: array<int>, ghost a: Spec.State)
    requires lanes.Length == 25 && Shows(lanes[..], a)
    modifies lanes
    ensures Shows(lanes[..], Spec.KeccakF(a))
  {
    hide Shows, Spec.Round, ThetaLanes, RhoPiLanes, ChiLanes, Xor;
    for round := 0 to 24
      invariant Shows(lanes[..], Spec.Rounds(a, round))
    {
      ghost var from := Spec.Rounds(a, round);
      ghost var s0 := lanes[..];
      Theta(lanes);
      ThetaShows(s0, from);
      ghost var s1 := lanes[..];
      var b := RhoPi(lanes);
      RhoPiShows(s1, Spec.Theta(from));
      ghost var s2 := b[..];
      Chi(lanes, b);
      ChiShows(s2, Spec.Pi(Spec.Rho(Spec.Theta(from))));
      ghost var s3 := lanes[..];
      IotaShows(s3, Spec.Chi(Spec.Pi(Spec.Rho(Spec.Theta(from)))), round);
      lanes[0] := Xor(lanes[0], ROUND_CONSTANTS[round]);
      assert lanes[..] == s3[0 := Xor(s3[0], ROUND_CONSTANTS[round])];
      RoundIs(from, round);
    }
  }

  lemma RoundIs(a: Spec.State, round: nat)
    ensures Spec.Iota(Spec.Chi(Spec.Pi(Spec.Rho(Spec.Theta(a)))), round) == Spec.Round(a, round)
  {
  }
}
