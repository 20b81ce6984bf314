/**
 BigInt operators on unbounded integers, read bit by bit in two's complement: bit 0 is the lowest,
 and a negative integer has infinitely many high bits set.
 */
module BigInts {
  function Bit(x: int, i: nat): bool
    decreases i
  {
    if i == 0 then x % 2 == 1 else Bit(x / 2, i - 1)
  }

  function Magnitude(x: int): nat { if x >= 0 then x else -x - 1 }

  /** Whether an integer is all zero bits or all one bits. */
  predicate Uniform(x: int) { x == 0 || x == -1 }

  function And(x: int, y: int): int
    decreases Magnitude(x) + Magnitude(y)
  {
    if Uniform(x) && Uniform(y) then (if x == -1 && y == -1 then -1 else 0)
    else 2 * And(x / 2, y / 2) + (if x % 2 == 1 && y % 2 == 1 then 1 else 0)
  }

  function Or(x: int, y: int): int
    decreases Magnitude(x) + Magnitude(y)
  {
    if Uniform(x) && Uniform(y) then (if x == -1 || y == -1 then -1 else 0)
    else 2 * Or(x / 2, y / 2) + (if x % 2 == 1 || y % 2 == 1 then 1 else 0)
  }

  function Xor(x: int, y: int): int
    decreases Magnitude(x) + Magnitude(y)
  {
    if Uniform(x) && Uniform(y) then (if x != y then -1 else 0)
    else 2 * Xor(x / 2, y / 2) + (if x % 2 != y % 2 then 1 else 0)
  }

  function Not(x: int): int { -x - 1 }

  function ShiftLeft(x: int, n: nat): int { if n == 0 then x else 2 * ShiftLeft(x, n - 1) }

  function ShiftRight(x: int, n: nat): int
    decreases n
  {
    if n == 0 then x else ShiftRight(x / 2, n - 1)
  }

  function Pow2(n: nat): (p: nat)
    ensures p > 0
  {
    if n == 0 then 1 else 2 * Pow2(n - 1)
  }

  /** An integer that fits in n bits. */
  predicate Fits(x: int, n: nat) { 0 <= x < Pow2(n) }

  lemma {:induction false} UniformBits(x: int, i: nat)
    requires Uniform(x)
    ensures Bit(x, i) == (x == -1)
    decreases i
  {
    if i > 0 { UniformBits(x / 2, i - 1); }
  }

  lemma {:induction false} BitAnd(x: int, y: int, i: nat)
    ensures Bit(And(x, y), i) == (Bit(x, i) && Bit(y, i))
    decreases i
  {
    if Uniform(x) && Uniform(y) {
      UniformBits(x, i);
      UniformBits(y, i);
      UniformBits(And(x, y), i);
    } else if i > 0 {
      BitAnd(x / 2, y / 2, i - 1);
    }
  }

  lemma {:induction false} BitOr(x: int, y: int, i: nat)
    ensures Bit(Or(x, y), i) == (Bit(x, i) || Bit(y, i))
    decreases i
  {
    if Uniform(x) && Uniform(y) {
      UniformBits(x, i);
      UniformBits(y, i);
      UniformBits(Or(x, y), i);
    } else if i > 0 {
      BitOr(x / 2, y / 2, i - 1);
    }
  }

  lemma {:induction false} BitXor(x: int, y: int, i: nat)
    ensures Bit(Xor(x, y), i) == (Bit(x, i) != Bit(y, i))
    decreases i
  {
    if Uniform(x) && Uniform(y) {
      UniformBits(x, i);
      UniformBits(y, i);
      UniformBits(Xor(x, y), i);
    } else if i > 0 {
      BitXor(x / 2, y / 2, i - 1);
    }
  }

  lemma {:induction false} BitNot(x: int, i: nat)
    ensures Bit(Not(x), i) == !Bit(x, i)
    decreases i
  {
    assert Not(x) / 2 == Not(x / 2);
    if i > 0 { BitNot(x / 2, i - 1); }
  }

  lemma {:induction false} BitShiftLeft(x: int, n: nat, i: nat)
    ensures Bit(ShiftLeft(x, n), i) == (i >= n && Bit(x, i - n))
  {
    if n > 0 {
      assert ShiftLeft(x, n) / 2 == ShiftLeft(x, n - 1);
      if i > 0 { BitShiftLeft(x, n - 1, i - 1); }
    }
  }

  lemma {:induction false} BitShiftRight(x: int, n: nat, i: nat)
    ensures Bit(ShiftRight(x, n), i) == Bit(x, i + n)
    decreases n
  {
    if n > 0 { BitShiftRight(x / 2, n - 1, i); }
  }

  lemma {:induction false} ShiftRightAdds(x: int, m: nat, n: nat)
    ensures ShiftRight(ShiftRight(x, m), n) == ShiftRight(x, m + n)
    decreases m
  {
    if m > 0 { ShiftRightAdds(x / 2, m - 1, n); }
  }

  /** A number that fits in n bits has no bit from n up. */
  lemma {:induction false} NoHighBits(x: int, n: nat, i: nat)
    requires Fits(x, n) && i >= n
    ensures !Bit(x, i)
  {
    if n == 0 {
      UniformBits(x, i);
    } else {
      NoHighBits(x / 2, n - 1, i - 1);
    }
  }

  /** A number made of n low bits and the rest. */
  lemma {:induction false} BitSplit(low: int, high: int, n: nat, i: nat)
    requires Fits(low, n)
    ensures Bit(low + ShiftLeft(high, n), i) == if i < n then Bit(low, i) else Bit(high, i - n)
  {
    if n > 0 {
      var x := low + ShiftLeft(high, n);
      assert x / 2 == low / 2 + ShiftLeft(high, n - 1) && x % 2 == low % 2;
      if i > 0 { BitSplit(low / 2, high, n - 1, i - 1); }
    }
  }

  lemma {:induction false} MaskBits(n: nat, i: nat)
    ensures Bit(Pow2(n) - 1, i) == (i < n)
  {
    if n == 0 {
      UniformBits(0, i);
    } else {
      assert (Pow2(n) - 1) / 2 == Pow2(n - 1) - 1;
      if i > 0 { MaskBits(n - 1, i - 1); }
    }
  }

  lemma {:induction false} AndFits(x: int, y: int, n: nat)
    requires Fits(y, n)
    ensures Fits(And(x, y), n)
    decreases n
  {
    if n == 0 {
      AndZero(x);
    } else if !(Uniform(x) && Uniform(y)) {
      AndFits(x / 2, y / 2, n - 1);
    }
  }

  lemma {:induction false} AndZero(x: int)
    ensures And(x, 0) == 0
    decreases Magnitude(x)
  {
    if !Uniform(x) { AndZero(x / 2); }
  }

  lemma {:induction false} XorFits(x: int, y: int, n: nat)
    requires Fits(x, n) && Fits(y, n)
    ensures Fits(Xor(x, y), n)
  {
    if n > 0 && !(Uniform(x) && Uniform(y)) { XorFits(x / 2, y / 2, n - 1); }
  }

  lemma {:induction false} OrFits(x: int, y: int, n: nat)
    requires Fits(x, n) && Fits(y, n)
    ensures Fits(Or(x, y), n)
  {
    if n > 0 && !(Uniform(x) && Uniform(y)) { OrFits(x / 2, y / 2, n - 1); }
  }

  lemma {:induction false} ShiftLeftFits(x: int, n: nat, k: nat)
    requires Fits(x, n)
    ensures Fits(ShiftLeft(x, k), n + k)
  {
    if k > 0 { ShiftLeftFits(x, n, k - 1); }
  }

  lemma {:induction false} FitsMore(x: int, n: nat, m: nat)
    requires Fits(x, n) && n <= m
    ensures Fits(x, m)
    decreases m
  {
    if n < m { FitsMore(x, n, m - 1); }
  }
}
