/**
 Keccak, bit by bit, as FIPS 202 states it: the step mappings of section 3.2, the permutation of section 3.3,
 the sponge of section 4 and the padding of section 5.1. A state is a function of x, y and z.
 */
module KeccakSpec {
  type State = (int, int, int) -> bool

  const LANE_BITS := 64
  const ROUNDS := 24
  const RATE := 1088
  const DIGEST_BITS := 256

  function Xor(p: bool, q: bool): bool { p != q }

  function Parity(a: State, x: int, z: int): bool {
    Xor(Xor(Xor(Xor(a(x, 0, z), a(x, 1, z)), a(x, 2, z)), a(x, 3, z)), a(x, 4, z))
  }

  function ThetaBit(a: State, x: int, y: int, z: int): bool {
    Xor(a(x, y, z), Xor(Parity(a, (x - 1) % 5, z), Parity(a, (x + 1) % 5, (z - 1) % LANE_BITS)))
  }

  /** Section 3.2.1. */
  function Theta(a: State): State { (x, y, z) => ThetaBit(a, x, y, z) }

  /** The lane that the t-th step of the walk of section 3.2.2 visits. */
  function Walk(t: nat): (int, int) {
    if t == 0 then (1, 0)
    else
      var at := Walk(t - 1);
      (at.1, (2 * at.0 + 3 * at.1) % 5)
  }

  function OffsetFrom(t: nat, x: int, y: int): nat
    decreases 24 - t
  {
    if t >= 24 then 0
    else if Walk(t) == (x, y) then (t + 1) * (t + 2) / 2
    else OffsetFrom(t + 1, x, y)
  }

  function RhoOffset(x: int, y: int): nat { if (x, y) == (0, 0) then 0 else OffsetFrom(0, x, y) }

  function RhoBit(a: State, x: int, y: int, z: int): bool { a(x, y, (z - RhoOffset(x, y)) % LANE_BITS) }

  /** Section 3.2.2. */
  function Rho(a: State): State { (x, y, z) => RhoBit(a, x, y, z) }

  function PiBit(a: State, x: int, y: int, z: int): bool { a((x + 3 * y) % 5, x, z) }

  /** Section 3.2.3. */
  function Pi(a: State): State { (x, y, z) => PiBit(a, x, y, z) }

  function ChiBit(a: State, x: int, y: int, z: int): bool {
    Xor(a(x, y, z), !a((x + 1) % 5, y, z) && a((x + 2) % 5, y, z))
  }

  /** Section 3.2.4. */
  function Chi(a: State): State { (x, y, z) => ChiBit(a, x, y, z) }

  /** The shift register of section 3.2.5, after t steps. */
  datatype Register = Register(r0: bool, r1: bool, r2: bool, r3: bool, r4: bool, r5: bool, r6: bool, r7: bool)

  function Shifted(r: Register): Register {
    Register(r.r7, r.r0, r.r1, r.r2, Xor(r.r3, r.r7), Xor(r.r4, r.r7), Xor(r.r5, r.r7), r.r6)
  }

  function RegisterAt(t: nat): Register {
    if t == 0 then Register(true, false, false, false, false, false, false, false) else Shifted(RegisterAt(t - 1))
  }

  function RoundBit(t: nat): bool { RegisterAt(t % 255).r0 }

  /** Bit z of the constant of a round: only the positions 2^j - 1 can be set. */
  function RoundConstantBit(round: nat, z: int): bool {
    if z == 0 then RoundBit(7 * round)
    else if z == 1 then RoundBit(7 * round + 1)
    else if z == 3 then RoundBit(7 * round + 2)
    else if z == 7 then RoundBit(7 * round + 3)
    else if z == 15 then RoundBit(7 * round + 4)
    else if z == 31 then RoundBit(7 * round + 5)
    else if z == 63 then RoundBit(7 * round + 6)
    else false
  }

  function IotaBit(a: State, round: nat, x: int, y: int, z: int): bool {
    Xor(a(x, y, z), x == 0 && y == 0 && RoundConstantBit(round, z))
  }

  /** Section 3.2.5. */
  function Iota(a: State, round: nat): State { (x, y, z) => IotaBit(a, round, x, y, z) }

  function Round(a: State, round: nat): State { Iota(Chi(Pi(Rho(Theta(a)))), round) }

  function Rounds(a: State, n: nat): State { if n == 0 then a else Round(Rounds(a, n - 1), n - 1) }

  /** Section 3.3. */
  function KeccakF(a: State): State { Rounds(a, ROUNDS) }

  /** Section 5.1: a one, the fewest zeros, a one. */
  function Pad(rate: int, length: int): seq<bool>
    requires rate > 0
  {
    [true] + seq((-length - 2) % rate, _ => false) + [true]
  }

  /** The place of a bit of a string in the state, section 3.1.2. */
  function Index(x: int, y: int, z: int): int { LANE_BITS * (5 * y + x) + z }

  function AbsorbBit(a: State, p: seq<bool>, from: nat, x: int, y: int, z: int): bool {
    var i := Index(x, y, z);
    Xor(a(x, y, z), 0 <= i < RATE && from + i < |p| && p[from + i])
  }

  function XorBlock(a: State, p: seq<bool>, from: nat): State { (x, y, z) => AbsorbBit(a, p, from, x, y, z) }

  const ZERO: State := (x, y, z) => false

  /** Section 4: the state once n blocks are absorbed. */
  function Absorbed(p: seq<bool>, n: nat): State {
    if n == 0 then ZERO else KeccakF(XorBlock(Absorbed(p, n - 1), p, RATE * (n - 1)))
  }

  function DigestBit(m: seq<bool>, k: nat): bool {
    var p := m + Pad(RATE, |m|);
    Absorbed(p, |p| / RATE)(k / LANE_BITS % 5, k / LANE_BITS / 5, k % LANE_BITS)
  }
}
