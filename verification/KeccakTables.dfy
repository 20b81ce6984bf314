/**
 The tables and the rotation of src/chain/keccak.ts against FIPS 202: rotations from the walk of section
 3.2.2, round constants from the shift register of section 3.2.5.
 */
module KeccakTables {
  import opened BigInts
  import Spec = KeccakSpec

  type Byte = b: int | 0 <= b < 256

  const ROUND_CONSTANTS: seq<int> := [
    0x0000000000000001, 0x0000000000008082, 0x800000000000808a, 0x8000000080008000,
    0x000000000000808b, 0x0000000080000001, 0x8000000080008081, 0x8000000000008009,
    0x000000000000008a, 0x0000000000000088, 0x0000000080008009, 0x000000008000000a,
    0x000000008000808b, 0x800000000000008b, 0x8000000000008089, 0x8000000000008003,
    0x8000000000008002, 0x8000000000000080, 0x000000000000800a, 0x800000008000000a,
    0x8000000080008081, 0x8000000000008080, 0x0000000080000001, 0x8000000080008008
  ]

  const ROTATIONS: seq<nat> := [
    0, 1, 62, 28, 27, 36, 44, 6, 55, 20, 3, 10, 43, 25, 39, 41, 45, 15, 21, 8, 18, 2, 61, 56, 14
  ]

  function Rotation(x: int, y: int): (r: nat)
    requires 0 <= x < 5 && 0 <= y < 5
    ensures r < 64
  {
    ROTATIONS[x + 5 * y]
  }

  const MASK64 := 0xffff_ffff_ffff_ffff

  function Rotl(value: int, amount: nat): int
    requires amount < 64
  {
    if amount == 0 then value
    else And(Or(ShiftLeft(value, amount), ShiftRight(value, 64 - amount)), MASK64)
  }

  lemma MaskFits()
    ensures Pow2(64) == 0x1_0000_0000_0000_0000 && MASK64 == Pow2(64) - 1
  {
    SmallPowers();
    PowAdd(32, 32);
  }

  lemma {:induction false} PowAdd(m: nat, n: nat)
    ensures Pow2(m + n) == Pow2(m) * Pow2(n)
  {
    if m > 0 { PowAdd(m - 1, n); }
  }

  /** The rotation stays inside 64 bits and moves bit z - amount to bit z. */
  lemma RotlBits(value: int, amount: nat, z: nat)
    requires Fits(value, 64) && amount < 64 && z < 64
    ensures Fits(Rotl(value, amount), 64)
    ensures Bit(Rotl(value, amount), z) == Bit(value, (z - amount) % 64)
  {
    hide Bit, And, Or, ShiftLeft, ShiftRight, Pow2;
    if amount > 0 {
      MaskFits();
      var left, right := ShiftLeft(value, amount), ShiftRight(value, 64 - amount);
      AndFits(Or(left, right), MASK64, 64);
      BitAnd(Or(left, right), MASK64, z);
      MaskBits(64, z);
      BitOr(left, right, z);
      BitShiftLeft(value, amount, z);
      BitShiftRight(value, 64 - amount, z);
      if z >= amount {
        NoHighBits(value, 64, z + 64 - amount);
      } else {
        assert (z - amount) % 64 == z + 64 - amount;
      }
    }
  }

  /* ---- Tables ---- */

  /** When the walk of section 3.2.2 is at a lane; the origin is never visited. */
  const TIMES: seq<nat> := [
    0, 0, 18, 6, 12, 7, 23, 2, 9, 22, 1, 3, 17, 16, 20, 13, 8, 4, 5, 15, 19, 10, 21, 14, 11
  ]

  lemma WalkTable()
    ensures Spec.Walk(0) == (1, 0) && Spec.Walk(1) == (0, 2) && Spec.Walk(2) == (2, 1) && Spec.Walk(3) == (1, 2)
    ensures Spec.Walk(4) == (2, 3) && Spec.Walk(5) == (3, 3) && Spec.Walk(6) == (3, 0) && Spec.Walk(7) == (0, 1)
    ensures Spec.Walk(8) == (1, 3) && Spec.Walk(9) == (3, 1) && Spec.Walk(10) == (1, 4) && Spec.Walk(11) == (4, 4)
    ensures Spec.Walk(12) == (4, 0) && Spec.Walk(13) == (0, 3) && Spec.Walk(14) == (3, 4) && Spec.Walk(15) == (4, 3)
    ensures Spec.Walk(16) == (3, 2) && Spec.Walk(17) == (2, 2) && Spec.Walk(18) == (2, 0) && Spec.Walk(19) == (0, 4)
    ensures Spec.Walk(20) == (4, 2) && Spec.Walk(21) == (2, 4) && Spec.Walk(22) == (4, 1) && Spec.Walk(23) == (1, 1)
  {
    assert Spec.Walk(0) == (1, 0);
    assert Spec.Walk(1) == (0, 2);
    assert Spec.Walk(2) == (2, 1);
    assert Spec.Walk(3) == (1, 2);
    assert Spec.Walk(4) == (2, 3);
    assert Spec.Walk(5) == (3, 3);
    assert Spec.Walk(6) == (3, 0);
    assert Spec.Walk(7) == (0, 1);
    assert Spec.Walk(8) == (1, 3);
    assert Spec.Walk(9) == (3, 1);
    assert Spec.Walk(10) == (1, 4);
    assert Spec.Walk(11) == (4, 4);
    assert Spec.Walk(12) == (4, 0);
    assert Spec.Walk(13) == (0, 3);
    assert Spec.Walk(14) == (3, 4);
    assert Spec.Walk(15) == (4, 3);
    assert Spec.Walk(16) == (3, 2);
    assert Spec.Walk(17) == (2, 2);
    assert Spec.Walk(18) == (2, 0);
    assert Spec.Walk(19) == (0, 4);
    assert Spec.Walk(20) == (4, 2);
    assert Spec.Walk(21) == (2, 4);
    assert Spec.Walk(22) == (4, 1);
  }

  predicate Timed(t: nat, x: int, y: int) {
    0 <= x < 5 && 0 <= y < 5 && (x, y) != (0, 0) && TIMES[x + 5 * y] == t
    && ROTATIONS[x + 5 * y] == (t + 1) * (t + 2) / 2 % 64
  }

  lemma WalkStartsTimed()
    ensures Timed(0, 1, 0) && Timed(1, 0, 2) && Timed(2, 2, 1) && Timed(3, 1, 2)
    ensures Timed(4, 2, 3) && Timed(5, 3, 3) && Timed(6, 3, 0) && Timed(7, 0, 1)
  {
  }

  lemma WalkGoesOnTimed()
    ensures Timed(8, 1, 3) && Timed(9, 3, 1) && Timed(10, 1, 4) && Timed(11, 4, 4)
    ensures Timed(12, 4, 0) && Timed(13, 0, 3) && Timed(14, 3, 4) && Timed(15, 4, 3)
  {
  }

  lemma WalkEndsTimed()
    ensures Timed(16, 3, 2) && Timed(17, 2, 2) && Timed(18, 2, 0) && Timed(19, 0, 4)
    ensures Timed(20, 4, 2) && Timed(21, 2, 4) && Timed(22, 4, 1) && Timed(23, 1, 1)
  {
  }

  lemma TimeOfWalk(t: nat)
    requires t < 24
    ensures Timed(t, Spec.Walk(t).0, Spec.Walk(t).1)
  {
    hide Spec.Walk, Timed;
    WalkTable();
    WalkStartsTimed();
    WalkGoesOnTimed();
    WalkEndsTimed();
    assert t == 0 || t == 1 || t == 2 || t == 3 || t == 4 || t == 5 || t == 6 || t == 7 || t == 8 || t == 9 || t == 10
      || t == 11 || t == 12 || t == 13 || t == 14 || t == 15 || t == 16 || t == 17 || t == 18 || t == 19 || t == 20
      || t == 21 || t == 22 || t == 23;
  }

  lemma {:induction false} SearchFinds(s: nat, t: nat)
    requires s <= t < 24
    ensures Spec.OffsetFrom(s, Spec.Walk(t).0, Spec.Walk(t).1) == (t + 1) * (t + 2) / 2
    decreases t - s
  {
    hide Spec.Walk;
    TimeOfWalk(s);
    TimeOfWalk(t);
    if s < t { SearchFinds(s + 1, t); }
  }

  /** The rotation table is the walk of section 3.2.2. */
  lemma RotationsAreTheWalk(x: int, y: int)
    requires 0 <= x < 5 && 0 <= y < 5
    ensures Rotation(x, y) == Spec.RhoOffset(x, y) % 64
  {
    hide Spec.Walk, Spec.OffsetFrom;
    if (x, y) != (0, 0) {
      var t := TIMES[x + 5 * y];
      WalkReaches(x, y);
      TimeOfWalk(t);
      SearchFinds(0, t);
    }
  }

  lemma WalkReaches(x: int, y: int)
    requires 0 <= x < 5 && 0 <= y < 5 && (x, y) != (0, 0)
    ensures TIMES[x + 5 * y] < 24 && Spec.Walk(TIMES[x + 5 * y]) == (x, y)
  {
    hide Spec.Walk;
    WalkTable();
    assert x == 0 || x == 1 || x == 2 || x == 3 || x == 4;
    assert y == 0 || y == 1 || y == 2 || y == 3 || y == 4;
  }

  function Flag(b: bool): int { if b then 1 else 0 }

  /** Seven steps of the register, and the lane its bits make. */
  function Seven(r: Spec.Register): Spec.Register {
    Spec.Shifted(Spec.Shifted(Spec.Shifted(Spec.Shifted(Spec.Shifted(Spec.Shifted(Spec.Shifted(r)))))))
  }

  function SevenBits(r: Spec.Register): int {
    var r1 := Spec.Shifted(r);
    var r2 := Spec.Shifted(r1);
    var r3 := Spec.Shifted(r2);
    var r4 := Spec.Shifted(r3);
    var r5 := Spec.Shifted(r4);
    var r6 := Spec.Shifted(r5);
    Sparse(Flag(r.r0), Flag(r1.r0), Flag(r2.r0), Flag(r3.r0), Flag(r4.r0), Flag(r5.r0), Flag(r6.r0))
  }

  /** The same, one step at a time. */
  function Steps(r: Spec.Register, n: nat): Spec.Register {
    if n == 0 then r else Spec.Shifted(Steps(r, n - 1))
  }

  function StepBits(r: Spec.Register): int {
    Sparse(Flag(Steps(r, 0).r0), Flag(Steps(r, 1).r0), Flag(Steps(r, 2).r0), Flag(Steps(r, 3).r0), Flag(Steps(r, 4).r0),
           Flag(Steps(r, 5).r0), Flag(Steps(r, 6).r0))
  }

  lemma SevenIsSteps(r: Spec.Register)
    ensures Seven(r) == Steps(r, 7) && SevenBits(r) == StepBits(r)
  {
    hide Spec.Shifted, Sparse;
    assert Steps(r, 1) == Spec.Shifted(r);
    assert Steps(r, 2) == Spec.Shifted(Spec.Shifted(r));
    assert Steps(r, 4) == Spec.Shifted(Spec.Shifted(Steps(r, 2)));
    assert Steps(r, 6) == Spec.Shifted(Spec.Shifted(Steps(r, 4)));
  }

  function Sparse(b0: int, b1: int, b3: int, b7: int, b15: int, b31: int, b63: int): int {
    b0 + 2 * (b1 + 4 * (b3 + 0x10 * (b7 + 0x100 * (b15 + 0x1_0000 * (b31 + 0x1_0000_0000 * b63)))))
  }

  /** The lane from position 7 up, below it, and all of it. */
  lemma SparseHighBits(b7: int, b15: int, b31: int, b63: int, z: nat)
    requires 0 <= b7 < 2 && 0 <= b15 < 2 && 0 <= b31 < 2 && 0 <= b63 < 2 && z < 57
    ensures Bit(b7 + 0x100 * (b15 + 0x1_0000 * (b31 + 0x1_0000_0000 * b63)), z)
      == (if z == 0 then b7 == 1 else if z == 8 then b15 == 1 else if z == 24 then b31 == 1 else z == 56 && b63 == 1)
  {
    hide Bit, Pow2;
    var h31 := b31 + 0x1_0000_0000 * b63;
    var h15 := b15 + 0x1_0000 * h31;
    SmallPowers();
    LowBit(b7, h15, 8, z);
    if z >= 8 {
      LowBit(b15, h31, 16, z - 8);
      if z >= 24 {
        LowBit(b31, b63, 32, z - 24);
        if z == 56 { LowBit(b63, 0, 1, 0); }
      }
    }
  }

  lemma SparseLowBits(b0: int, b1: int, b3: int, high: int, z: nat)
    requires 0 <= b0 < 2 && 0 <= b1 < 2 && 0 <= b3 < 2
    ensures Bit(b0 + 2 * (b1 + 4 * (b3 + 0x10 * high)), z)
      == if z >= 7 then Bit(high, z - 7) else if z == 0 then b0 == 1 else if z == 1 then b1 == 1 else z == 3 && b3 == 1
  {
    hide Bit, Pow2;
    var h3 := b3 + 0x10 * high;
    SmallPowers();
    LowBit(b0, b1 + 4 * h3, 1, z);
    if z >= 1 {
      LowBit(b1, h3, 2, z - 1);
      if z >= 3 { LowBit(b3, high, 4, z - 3); }
    }
  }

  lemma SparseBits(b0: int, b1: int, b3: int, b7: int, b15: int, b31: int, b63: int, z: nat)
    requires 0 <= b0 < 2 && 0 <= b1 < 2 && 0 <= b3 < 2 && 0 <= b7 < 2 && 0 <= b15 < 2 && 0 <= b31 < 2 && 0 <= b63 < 2
    requires z < 64
    ensures Bit(Sparse(b0, b1, b3, b7, b15, b31, b63), z)
      == (if z == 0 then b0 == 1 else if z == 1 then b1 == 1 else if z == 3 then b3 == 1 else if z == 7 then b7 == 1
          else if z == 15 then b15 == 1 else if z == 31 then b31 == 1 else z == 63 && b63 == 1)
  {
    hide Bit, Pow2;
    SparseLowBits(b0, b1, b3, b7 + 0x100 * (b15 + 0x1_0000 * (b31 + 0x1_0000_0000 * b63)), z);
    if z >= 7 { SparseHighBits(b7, b15, b31, b63, z - 7); }
  }

  lemma SmallPowers()
    ensures Pow2(1) == 2 && Pow2(2) == 4 && Pow2(4) == 0x10 && Pow2(8) == 0x100
    ensures Pow2(16) == 0x1_0000 && Pow2(32) == 0x1_0000_0000
  {
    assert Pow2(1) == 2;
    assert Pow2(2) == 4;
    PowAdd(2, 2);
    PowAdd(4, 4);
    PowAdd(8, 8);
    PowAdd(16, 16);
  }

  /** One bit, then n - 1 zeros, then the rest. */
  lemma LowBit(b: int, high: int, n: nat, i: nat)
    requires (b == 0 || b == 1) && n > 0
    ensures Bit(b + Pow2(n) * high, i) == if i < n then i == 0 && b == 1 else Bit(high, i - n)
  {
    ShiftIsProduct(high, n);
    FitsMore(b, 1, n);
    BitSplit(b, high, n, i);
    if i > 0 { NoHighBits(b, 1, i); }
  }

  lemma {:induction false} ShiftIsProduct(x: int, n: nat)
    ensures ShiftLeft(x, n) == Pow2(n) * x
  {
    if n > 0 { ShiftIsProduct(x, n - 1); }
  }

  function RegisterOf(round: nat): Spec.Register {
    if round == 0 then Spec.RegisterAt(0) else Steps(RegisterOf(round - 1), 7)
  }

  lemma {:induction false} RegisterOfRound(round: nat)
    ensures RegisterOf(round) == Spec.RegisterAt(7 * round)
  {
    if round > 0 {
      RegisterOfRound(round - 1);
      StepsOfRegister(7 * (round - 1), 7);
    }
  }

  lemma {:induction false} StepsOfRegister(t: nat, n: nat)
    ensures Spec.RegisterAt(t + n) == Steps(Spec.RegisterAt(t), n)
  {
    hide Spec.Shifted;
    if n > 0 { StepsOfRegister(t, n - 1); }
  }

  lemma StepIsRoundBit(t: nat, n: nat)
    requires t + n < 255
    ensures Steps(Spec.RegisterAt(t), n).r0 == Spec.RoundBit(t + n)
  {
    hide Spec.Shifted, Steps, Spec.RegisterAt;
    StepsOfRegister(t, n);
  }

  /** One round of the register from a known start, with the constant it makes. */
  predicate Makes(start: Spec.Register, next: Spec.Register, constant: int) {
    Seven(start) == next && SevenBits(start) == constant
  }

  lemma InitialConstants()
    ensures Makes(Spec.Register(true, false, false, false, false, false, false, false),
                  Spec.Register(false, false, false, false, false, false, false, true), 0x1)
  {
  }

  lemma FirstConstants()
    ensures Makes(Spec.Register(false, false, false, false, false, false, false, true),
                  Spec.Register(false, false, false, true, true, false, true, true), 0x8082)
    ensures Makes(Spec.Register(false, false, false, true, true, false, true, true),
                  Spec.Register(false, true, false, true, true, false, false, false), 0x800000000000808a)
    ensures Makes(Spec.Register(false, true, false, true, true, false, false, false),
                  Spec.Register(true, true, true, true, true, false, true, true), 0x8000000080008000)
    ensures Makes(Spec.Register(true, true, true, true, true, false, true, true),
                  Spec.Register(true, false, false, true, false, false, false, false), 0x808b)
    ensures Makes(Spec.Register(true, false, false, true, false, false, false, false),
                  Spec.Register(true, false, true, false, true, true, false, false), 0x80000001)
  {
  }

  lemma SecondConstants()
    ensures Makes(Spec.Register(true, false, true, false, true, true, false, false),
                  Spec.Register(true, true, true, true, false, false, true, false), 0x8000000080008081)
    ensures Makes(Spec.Register(true, true, true, true, false, false, true, false),
                  Spec.Register(false, true, false, true, false, false, true, true), 0x8000000000008009)
    ensures Makes(Spec.Register(false, true, false, true, false, false, true, true),
                  Spec.Register(false, false, false, false, true, true, true, false), 0x8a)
    ensures Makes(Spec.Register(false, false, false, false, true, true, true, false),
                  Spec.Register(true, false, false, false, false, false, true, false), 0x88)
    ensures Makes(Spec.Register(true, false, false, false, false, false, true, false),
                  Spec.Register(false, false, true, true, false, true, true, true), 0x80008009)
    ensures Makes(Spec.Register(false, false, true, true, false, true, true, true),
                  Spec.Register(true, false, true, false, true, false, true, true), 0x8000000a)
  {
  }

  lemma ThirdConstants()
    ensures Makes(Spec.Register(true, false, true, false, true, false, true, true),
                  Spec.Register(true, false, true, true, false, false, true, true), 0x8000808b)
    ensures Makes(Spec.Register(true, false, true, true, false, false, true, true),
                  Spec.Register(true, true, false, false, false, true, true, false), 0x800000000000008b)
    ensures Makes(Spec.Register(true, true, false, false, false, true, true, false),
                  Spec.Register(true, true, false, true, false, true, false, true), 0x8000000000008089)
    ensures Makes(Spec.Register(true, true, false, true, false, true, false, true),
                  Spec.Register(false, true, false, true, false, true, false, true), 0x8000000000008003)
    ensures Makes(Spec.Register(false, true, false, true, false, true, false, true),
                  Spec.Register(false, true, false, true, false, true, false, false), 0x8000000000008002)
    ensures Makes(Spec.Register(false, true, false, true, false, true, false, false),
                  Spec.Register(false, true, false, false, true, true, true, true), 0x8000000000000080)
  {
  }

  lemma LastConstants()
    ensures Makes(Spec.Register(false, true, false, false, true, true, true, true),
                  Spec.Register(false, false, false, true, false, true, true, true), 0x800a)
    ensures Makes(Spec.Register(false, false, false, true, false, true, true, true),
                  Spec.Register(true, true, true, false, true, true, false, false), 0x800000008000000a)
    ensures Makes(Spec.Register(true, true, true, false, true, true, false, false),
                  Spec.Register(false, true, true, true, true, true, false, false), 0x8000000080008081)
    ensures Makes(Spec.Register(false, true, true, true, true, true, false, false),
                  Spec.Register(true, true, false, true, false, false, false, false), 0x8000000000008080)
    ensures Makes(Spec.Register(true, true, false, true, false, false, false, false),
                  Spec.Register(false, false, true, false, false, false, true, false), 0x80000001)
    ensures Makes(Spec.Register(false, false, true, false, false, false, true, false),
                  Spec.Register(false, true, true, true, false, false, false, true), 0x8000000080008008)
  {
  }

  lemma ConstantsOfRegister(round: nat)
    requires round < 24
    ensures ROUND_CONSTANTS[round] == StepBits(RegisterOf(round))
  {
    hide SevenBits, Seven, StepBits, Steps;
    forall r: Spec.Register ensures Seven(r) == Steps(r, 7) && SevenBits(r) == StepBits(r) { SevenIsSteps(r); }
    assert RegisterOf(0) == Spec.Register(true, false, false, false, false, false, false, false);
    InitialConstants();
    FirstConstants();
    assert RegisterOf(1) == Seven(RegisterOf(0));
    assert RegisterOf(2) == Seven(RegisterOf(1));
    assert RegisterOf(3) == Seven(RegisterOf(2));
    assert RegisterOf(4) == Seven(RegisterOf(3));
    assert RegisterOf(5) == Seven(RegisterOf(4));
    SecondConstants();
    assert RegisterOf(6) == Seven(RegisterOf(5));
    assert RegisterOf(7) == Seven(RegisterOf(6));
    assert RegisterOf(8) == Seven(RegisterOf(7));
    assert RegisterOf(9) == Seven(RegisterOf(8));
    assert RegisterOf(10) == Seven(RegisterOf(9));
    assert RegisterOf(11) == Seven(RegisterOf(10));
    ThirdConstants();
    assert RegisterOf(12) == Seven(RegisterOf(11));
    assert RegisterOf(13) == Seven(RegisterOf(12));
    assert RegisterOf(14) == Seven(RegisterOf(13));
    assert RegisterOf(15) == Seven(RegisterOf(14));
    assert RegisterOf(16) == Seven(RegisterOf(15));
    assert RegisterOf(17) == Seven(RegisterOf(16));
    LastConstants();
    assert RegisterOf(18) == Seven(RegisterOf(17));
    assert RegisterOf(19) == Seven(RegisterOf(18));
    assert RegisterOf(20) == Seven(RegisterOf(19));
    assert RegisterOf(21) == Seven(RegisterOf(20));
    assert RegisterOf(22) == Seven(RegisterOf(21));
    assert RegisterOf(23) == Seven(RegisterOf(22));
    assert round == 0 || round == 1 || round == 2 || round == 3 || round == 4 || round == 5 || round == 6
      || round == 7 || round == 8 || round == 9 || round == 10 || round == 11 || round == 12 || round == 13
      || round == 14 || round == 15 || round == 16 || round == 17 || round == 18 || round == 19 || round == 20
      || round == 21 || round == 22 || round == 23;
  }

  lemma ConstantFits(round: nat)
    requires round < 24
    ensures Fits(ROUND_CONSTANTS[round], 64)
  {
    hide Pow2;
    MaskFits();
    assert forall c | c in ROUND_CONSTANTS :: 0 <= c <= MASK64;
  }

  /** The constants of the rounds are the shift register's bits. */
  lemma RoundConstantsAreTheRegister(round: nat, z: nat)
    requires round < 24 && z < 64
    ensures Fits(ROUND_CONSTANTS[round], 64)
    ensures Bit(ROUND_CONSTANTS[round], z) == Spec.RoundConstantBit(round, z)
  {
    hide Spec.RegisterAt, RegisterOf, Steps, Sparse, Bit, Spec.RoundBit, Fits;
    ConstantFits(round);
    RegisterOfRound(round);
    ConstantsOfRegister(round);
    var t := 7 * round;
    StepIsRoundBit(t, 0);
    StepIsRoundBit(t, 1);
    StepIsRoundBit(t, 2);
    StepIsRoundBit(t, 3);
    StepIsRoundBit(t, 4);
    StepIsRoundBit(t, 5);
    StepIsRoundBit(t, 6);
    SparseBits(Flag(Spec.RoundBit(t)), Flag(Spec.RoundBit(t + 1)), Flag(Spec.RoundBit(t + 2)),
               Flag(Spec.RoundBit(t + 3)), Flag(Spec.RoundBit(t + 4)), Flag(Spec.RoundBit(t + 5)),
               Flag(Spec.RoundBit(t + 6)), z);
  }
}
