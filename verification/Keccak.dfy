/**
 Keccak-256 over BigInt lanes (src/chain/keccak.ts), against the bit level of FIPS 202.
 */
module Keccak {
  import Spec = KeccakSpec
  import opened BigInts
  import opened KeccakTables
  import opened KeccakPermutation

  /* ---- Padding ---- */

  const RATE_BYTES := 136

  /** The bits of a byte string: the lowest bit of each byte first. */
  function BitsOf(bytes: seq<Byte>): (p: seq<bool>)
    ensures |p| == 8 * |bytes|
  {
    seq(8 * |bytes|, k requires 0 <= k < 8 * |bytes| => Bit(bytes[k / 8], k % 8))
  }

  function PaddedLength(n: nat): nat { (n + 1 + RATE_BYTES - 1) / RATE_BYTES * RATE_BYTES }

  /** The padded input: 0x01 after the message, 0x80 in the last byte, and 0x81 where they are one byte. */
  function Padded(m: seq<Byte>): (r: seq<Byte>)
    ensures |r| == PaddedLength(|m|) && |m| < |r| && |r| % RATE_BYTES == 0
  {
    var length := PaddedLength(|m|);
    if length == |m| + 1 then m + [0x81]
    else m + [0x01] + seq(length - |m| - 2, _ => 0) + [0x80]
  }

  method Pad(input: seq<Byte>) returns (padded: array<Byte>)
    ensures fresh(padded) && padded[..] == Padded(input)
  {
    padded := new Byte[(|input| + 1 + RATE_BYTES - 1) / RATE_BYTES * RATE_BYTES](_ => 0);
    for i := 0 to |input|
      invariant forall k :: 0 <= k < padded.Length ==> padded[k] == if k < i then input[k] else 0
    {
      padded[i] := input[i];
    }
    padded[|input|] := 0x01;
    HighBit();
    padded[padded.Length - 1] := Or(padded[padded.Length - 1], 0x80);
  }

  lemma HighBit()
    ensures Or(0, 0x80) == 0x80 && Or(0x01, 0x80) == 0x81
  {
    assert Or(0, 0x80) == 0x80;
    assert Or(0x01, 0x80) == 0x81;
  }

  /** No two messages, of any lengths, are padded alike. */
  lemma PaddingIsInjective(a: seq<Byte>, b: seq<Byte>)
    requires Padded(a) == Padded(b)
    ensures a == b
  {
    if |a| < |b| {
      ShorterDiffers(a, b);
    } else if |b| < |a| {
      ShorterDiffers(b, a);
    } else {
      assert Padded(a)[..|a|] == a && Padded(b)[..|b|] == b;
    }
  }

  /** Where the longer message's padding begins, the shorter one's padding holds zeros or its last 0x80. */
  lemma ShorterDiffers(a: seq<Byte>, b: seq<Byte>)
    requires |a| < |b| && |Padded(a)| == |Padded(b)|
    ensures Padded(a)[|b|] != Padded(b)[|b|]
  {
  }

  /** The padding is the pad10*1 of section 5.1 with no suffix, on the bits of the message. */
  lemma PaddingIsTheStandard(m: seq<Byte>)
    ensures BitsOf(Padded(m)) == BitsOf(m) + Spec.Pad(Spec.RATE, |BitsOf(m)|)
  {
    hide Bit;
    var r, n := Padded(m), |m|;
    var p := BitsOf(m) + Spec.Pad(Spec.RATE, 8 * n);
    PaddingLength(n);
    forall k | 0 <= k < 8 * |r| ensures BitsOf(r)[k] == p[k] {
      if k >= 8 * n {
        PaddingBytes(k % 8);
        assert r[k / 8]
          == if k / 8 == n then (if n + 1 == |r| then 0x81 else 0x01) else if k / 8 == |r| - 1 then 0x80 else 0;
        assert k == 8 * (k / 8) + k % 8;
      }
    }
  }

  lemma PaddingLength(n: nat)
    ensures 8 * n + |Spec.Pad(Spec.RATE, 8 * n)| == 8 * PaddedLength(n)
  {
    var q := (n + RATE_BYTES) / RATE_BYTES;
    var zeros := 8 * (RATE_BYTES * q) - 8 * n - 2;
    assert 0 <= zeros < Spec.RATE;
    assert -(8 * n) - 2 == zeros - Spec.RATE * q;
    assert (zeros - Spec.RATE * q) % Spec.RATE == zeros;
  }

  lemma PaddingBytes(i: nat)
    requires i < 8
    ensures !Bit(0, i) && Bit(0x01, i) == (i == 0) && Bit(0x80, i) == (i == 7) && Bit(0x81, i) == (i == 0 || i == 7)
  {
    assert i == 0 || i == 1 || i == 2 || i == 3 || i == 4 || i == 5 || i == 6 || i == 7;
  }

  /* ---- The sponge ---- */

  /** Eight bytes, the lowest first. */
  method LoadLane(padded: array<Byte>, at: nat) returns (value: int)
    requires at + 8 <= padded.Length
    ensures Fits(value, 64)
    ensures forall z :: 0 <= z < 64 ==> Bit(value, z) == Bit(padded[at + z / 8], z % 8)
  {
    hide Bit, Fits, Or, ShiftLeft;
    value := 0;
    NothingFits();
    var index := 8;
    while index > 0
      invariant 0 <= index <= 8 && Fits(value, 64 - 8 * index)
      invariant forall z :: 0 <= z < 64 - 8 * index ==> Bit(value, z) == Bit(padded[at + index + z / 8], z % 8)
    {
      index := index - 1;
      var byte := padded[at + index];
      forall z | 0 <= z < 64 - 8 * index
        ensures Bit(Or(ShiftLeft(value, 8), byte), z) == Bit(padded[at + index + z / 8], z % 8)
      {
        ByteBelow(value, byte, 56 - 8 * index, z);
        if z >= 8 { assert (z - 8) / 8 == z / 8 - 1 && (z - 8) % 8 == z % 8; }
      }
      ByteBelow(value, byte, 56 - 8 * index, 0);
      value := Or(ShiftLeft(value, 8), byte);
    }
  }

  lemma NothingFits()
    ensures Fits(0, 0)
  {
  }

  lemma ByteBelow(value: int, byte: Byte, n: nat, z: nat)
    requires Fits(value, n)
    ensures Fits(Or(ShiftLeft(value, 8), byte), n + 8)
    ensures Bit(Or(ShiftLeft(value, 8), byte), z) == if z < 8 then Bit(byte, z) else Bit(value, z - 8)
  {
    hide Bit, Or, ShiftLeft, Pow2;
    SmallPowers();
    FitsMore(byte, 8, n + 8);
    ShiftLeftFits(value, n, 8);
    OrFits(ShiftLeft(value, 8), byte, n + 8);
    BitOr(ShiftLeft(value, 8), byte, z);
    BitShiftLeft(value, 8, z);
    if z >= 8 { NoHighBits(byte, 8, z); }
  }

  function PartBit(a: Spec.State, p: seq<bool>, from: nat, n: nat, x: int, y: int, z: int): bool {
    if 5 * y + x < n then Spec.AbsorbBit(a, p, from, x, y, z) else a(x, y, z)
  }

  /** The state once the first n lanes of a block are in. */
  function Part(a: Spec.State, p: seq<bool>, from: nat, n: nat): Spec.State {
    (x, y, z) => PartBit(a, p, from, n, x, y, z)
  }

  lemma LaneAbsorbed(s: seq<int>, a: Spec.State, p: seq<bool>, from: nat, n: nat, value: int)
    requires n < 17 && Shows(s, Part(a, p, from, n)) && Fits(value, 64) && from + 64 * n + 64 <= |p|
    requires forall z :: 0 <= z < 64 ==> Bit(value, z) == p[from + 64 * n + z]
    ensures Shows(s[n := Xor(s[n], value)], Part(a, p, from, n + 1))
  {
    hide Fits, Bit, Xor;
    var t, b := s[n := Xor(s[n], value)], Part(a, p, from, n + 1);
    forall x, y, z | 0 <= x < 5 && 0 <= y < 5 && 0 <= z < 64 ensures BitShown(t, b, x, y, z) {
      assert BitShown(s, Part(a, p, from, n), x, y, z);
      if x + 5 * y == n { XorBits(s[n], value, z); }
    }
  }

  lemma NothingAbsorbed(s: seq<int>, a: Spec.State, p: seq<bool>, from: nat)
    requires Shows(s, a)
    ensures Shows(s, Part(a, p, from, 0))
  {
    hide Fits, Bit, Lane;
    forall x, y, z | 0 <= x < 5 && 0 <= y < 5 && 0 <= z < 64 ensures BitShown(s, Part(a, p, from, 0), x, y, z) {
      assert BitShown(s, a, x, y, z);
    }
  }

  lemma BlockAbsorbed(s: seq<int>, a: Spec.State, p: seq<bool>, from: nat)
    requires Shows(s, Part(a, p, from, 17))
    ensures Shows(s, Spec.XorBlock(a, p, from))
  {
    hide Fits, Bit, Lane;
    var b := Spec.XorBlock(a, p, from);
    forall x, y, z | 0 <= x < 5 && 0 <= y < 5 && 0 <= z < 64 ensures BitShown(s, b, x, y, z) {
      assert BitShown(s, Part(a, p, from, 17), x, y, z);
      assert b(x, y, z) == Spec.AbsorbBit(a, p, from, x, y, z);
    }
  }

  /** One block of 136 bytes, seventeen lanes, into the state. */
  method AbsorbBlock(lanes: array<int>, padded: array<Byte>, offset: nat, ghost a: Spec.State)
    requires lanes.Length == 25 && Shows(lanes[..], a) && offset + RATE_BYTES <= padded.Length
    modifies lanes
    ensures Shows(lanes[..], Spec.XorBlock(a, BitsOf(padded[..]), 8 * offset))
  {
    hide Shows, Bit, Fits, Xor;
    ghost var bytes := padded[..];
    ghost var p := BitsOf(bytes);
    NothingAbsorbed(lanes[..], a, p, 8 * offset);
    for lane := 0 to 17
      invariant Shows(lanes[..], Part(a, p, 8 * offset, lane))
    {
      var value := LoadLane(padded, offset + lane * 8);
      ghost var s := lanes[..];
      forall z | 0 <= z < 64 ensures Bit(value, z) == p[8 * offset + 64 * lane + z] {
        var k := 8 * offset + 64 * lane + z;
        assert k / 8 == offset + lane * 8 + z / 8 && k % 8 == z % 8;
      }
      LaneAbsorbed(s, a, p, 8 * offset, lane, value);
      lanes[lane] := Xor(lanes[lane], value);
      assert lanes[..] == s[lane := Xor(s[lane], value)];
    }
    BlockAbsorbed(lanes[..], a, p, 8 * offset);
  }

  lemma ZeroShown(s: seq<int>)
    requires |s| == 25 && forall i :: 0 <= i < 25 ==> s[i] == 0
    ensures Shows(s, Spec.ZERO)
  {
    forall x, y, z | 0 <= x < 5 && 0 <= y < 5 && 0 <= z < 64 ensures BitShown(s, Spec.ZERO, x, y, z) {
      UniformBits(0, z);
    }
  }

  /** Byte i of a lane, the lowest first. */
  lemma ByteOfLane(lane: int, i: nat, z: nat)
    requires z < 8
    ensures 0 <= And(ShiftRight(lane, 8 * i), 0xff) < 256
    ensures Bit(And(ShiftRight(lane, 8 * i), 0xff), z) == Bit(lane, 8 * i + z)
  {
    hide Bit, And, ShiftRight, Pow2;
    SmallPowers();
    AndFits(ShiftRight(lane, 8 * i), 0xff, 8);
    BitAnd(ShiftRight(lane, 8 * i), 0xff, z);
    MaskBits(8, z);
    BitShiftRight(lane, 8 * i, z);
  }

  /** The first 32 bytes of the state. */
  method Squeeze(lanes: array<int>, ghost a: Spec.State) returns (out: array<Byte>)
    requires lanes.Length == 25 && Shows(lanes[..], a)
    ensures fresh(out) && out.Length == 32
    ensures forall k :: 0 <= k < 256 ==> Bit(out[k / 8], k % 8) == a(k / 64 % 5, k / 64 / 5, k % 64)
  {
    hide Bit, And, ShiftRight, Fits;
    out := new Byte[32](_ => 0);
    for lane := 0 to 4
      invariant out.Length == 32
      invariant forall i :: 0 <= i < 8 * lane ==> ByteShown(out[i], a, i)
    {
      var value := lanes[lane];
      ShiftByNothing(value);
      for byte := 0 to 8
        invariant out.Length == 32 && value == ShiftRight(lanes[lane], 8 * byte)
        invariant forall i :: 0 <= i < 8 * lane + byte ==> ByteShown(out[i], a, i)
      {
        forall z | 0 <= z < 8
          ensures 0 <= And(value, 0xff) < 256
          ensures Bit(And(value, 0xff), z) == a(lane, 0, 8 * byte + z)
        {
          ByteOfLane(lanes[lane], byte, z);
          assert BitShown(lanes[..], a, lane, 0, 8 * byte + z);
        }
        assert 0 <= And(value, 0xff) < 256 by { ByteOfLane(lanes[lane], byte, 0); }
        out[lane * 8 + byte] := And(value, 0xff);
        assert ByteShown(out[lane * 8 + byte], a, lane * 8 + byte);
        ShiftRightAdds(lanes[lane], 8 * byte, 8);
        value := ShiftRight(value, 8);
      }
    }
    forall k | 0 <= k < 256 ensures Bit(out[k / 8], k % 8) == a(k / 64 % 5, k / 64 / 5, k % 64) {
      assert ByteShown(out[k / 8], a, k / 8);
      assert k / 8 / 8 == k / 64 && k / 8 % 8 * 8 + k % 8 == k % 64;
    }
  }

  ghost predicate ByteShown(b: Byte, a: Spec.State, i: nat) {
    forall z :: 0 <= z < 8 ==> Bit(b, z) == a(i / 8, 0, i % 8 * 8 + z)
  }

  lemma ShiftByNothing(x: int)
    ensures ShiftRight(x, 0) == x
  {
  }

  /** Keccak-256: bit for bit the digest of the standard's sponge, with the original padding. */
  method Keccak256(input: seq<Byte>) returns (out: array<Byte>)
    ensures fresh(out) && out.Length == 32
    ensures forall k :: 0 <= k < 256 ==> Bit(out[k / 8], k % 8) == Spec.DigestBit(BitsOf(input), k)
  {
    hide Bit, Shows, BitsOf, Spec.KeccakF, Spec.XorBlock, Padded, Spec.Pad;
    var padded := Pad(input);
    ghost var p := BitsOf(padded[..]);
    PaddingIsTheStandard(input);
    var lanes := new int[25](_ => 0);
    ZeroShown(lanes[..]);
    var offset := 0;
    while offset < padded.Length
      invariant offset % RATE_BYTES == 0 && 0 <= offset <= padded.Length
      invariant padded[..] == Padded(input)
      invariant Shows(lanes[..], Spec.Absorbed(p, offset / RATE_BYTES))
    {
      ghost var n := offset / RATE_BYTES;
      ghost var a := Spec.Absorbed(p, n);
      AbsorbBlock(lanes, padded, offset, a);
      Permute(lanes, Spec.XorBlock(a, p, 8 * offset));
      offset := offset + RATE_BYTES;
      assert offset / RATE_BYTES == n + 1 && 8 * (offset - RATE_BYTES) == Spec.RATE * n;
    }
    assert |p| / Spec.RATE == padded.Length / RATE_BYTES;
    out := Squeeze(lanes, Spec.Absorbed(p, |p| / Spec.RATE));
  }
}
