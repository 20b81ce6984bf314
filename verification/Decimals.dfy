/**
 Whole numbers as decimal text.
 */
module Decimals {
  function Digit(n: int): char
    requires 0 <= n < 10
  {
    '0' + n as char
  }

  function Decimal(n: nat): (d: string)
    ensures d != [] && forall c | c in d :: '0' <= c <= '9'
  {
    if n < 10 then [Digit(n)] else Decimal(n / 10) + [Digit(n % 10)]
  }

  function ValueOf(d: string): int {
    if d == [] then 0 else 10 * ValueOf(d[..|d| - 1]) + (d[|d| - 1] as int - '0' as int)
  }

  lemma {:induction false} DecimalReads(n: nat)
    ensures ValueOf(Decimal(n)) == n
  {
    var d := Decimal(n);
    if n >= 10 {
      DecimalReads(n / 10);
      assert d[..|d| - 1] == Decimal(n / 10);
    } else {
      assert d[..|d| - 1] == [];
    }
  }

  /** How many digits an identifier ends in. */
  function DigitsAtEnd(id: string): nat {
    if id == [] || !('0' <= id[|id| - 1] <= '9') then 0 else 1 + DigitsAtEnd(id[..|id| - 1])
  }

  lemma {:induction false} DigitsEnd(head: string, d: string)
    requires forall c | c in d :: '0' <= c <= '9'
    ensures DigitsAtEnd(head + "-" + d) == |d|
  {
    var id := head + "-" + d;
    if d != [] {
      var shorter := d[..|d| - 1];
      assert forall c | c in shorter :: c in d;
      DigitsEnd(head, shorter);
      assert d[|d| - 1] in d && id[|id| - 1] == d[|d| - 1];
      assert id[..|id| - 1] == head + "-" + shorter;
    }
  }

  lemma DecimalIsInjective(m: nat, n: nat)
    requires Decimal(m) == Decimal(n)
    ensures m == n
  {
    DecimalReads(m);
    DecimalReads(n);
  }

  /** A number padded with zeros on the left to at least this many digits. */
  function Padded(n: nat, width: nat): (d: string)
    ensures forall c | c in d :: '0' <= c <= '9'
  {
    Zeros(if width > |Decimal(n)| then width - |Decimal(n)| else 0) + Decimal(n)
  }

  function Zeros(n: nat): (d: string)
    ensures |d| == n && forall c | c in d :: c == '0'
  {
    if n == 0 then "" else Zeros(n - 1) + "0"
  }

  lemma {:induction false} ZerosBefore(n: nat, d: string)
    ensures ValueOf(Zeros(n) + d) == ValueOf(d)
    decreases |d|, n
  {
    var t := Zeros(n) + d;
    if d != [] {
      assert t[..|t| - 1] == Zeros(n) + d[..|d| - 1];
      ZerosBefore(n, d[..|d| - 1]);
    } else {
      assert t == Zeros(n);
      if n > 0 {
        ZerosBefore(n - 1, []);
        assert t[..|t| - 1] == Zeros(n - 1) + [];
      }
    }
  }

  lemma PaddedIsInjective(m: nat, n: nat, width: nat)
    requires Padded(m, width) == Padded(n, width)
    ensures m == n
  {
    ZerosBefore(if width > |Decimal(m)| then width - |Decimal(m)| else 0, Decimal(m));
    ZerosBefore(if width > |Decimal(n)| then width - |Decimal(n)| else 0, Decimal(n));
    DecimalReads(m);
    DecimalReads(n);
  }
}
