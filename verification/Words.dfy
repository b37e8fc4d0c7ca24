/** Machine words of the driver: 32- and 64-bit unsigned arithmetic, made explicit. */
module Words {
  const TWO32: int := 0x1_0000_0000
  const TWO64: int := 0x1_0000_0000_0000_0000

  type u32 = x: int | 0 <= x < 0x1_0000_0000
  type u64 = x: int | 0 <= x < 0x1_0000_0000_0000_0000

  function Wrap32(x: int): u32 { x % TWO32 }
  function Wrap64(x: int): u64 { x % TWO64 }

  function Min(x: int, y: int): int { if x <= y then x else y }
  function Max(x: int, y: int): int { if x <= y then y else x }

  /** PCI_DMA_L and PCI_DMA_H: the two 32-bit halves of a bus address. */
  function Lo(a: u64): u32 { a % TWO32 }
  function Hi(a: u64): u32 { a / TWO32 }

  /** How the hardware reassembles the two halves. */
  function Join(lo: u32, hi: u32): u64 { hi * TWO32 + lo }

  lemma JoinHalves(a: u64)
    ensures Join(Lo(a), Hi(a)) == a
  {
  }

  lemma WrapAdd(a: int, x: int)
    ensures Wrap64(Wrap64(a) + x) == Wrap64(a + x)
  {
  }

  lemma WrapAdd32(a: int, x: int)
    ensures Wrap32(Wrap32(a) + x) == Wrap32(a + x)
  {
  }

  lemma DivUnique(x: int, b: int, q: int, r: int)
    requires 0 < b && x == b * q + r && 0 <= r < b
    ensures x / b == q
  {
    var d := x / b - q;
    assert b * d == r - x % b by {
      assert x == b * (x / b) + x % b;
      assert b * d == b * (x / b) - b * q;
    }
    assert -b < b * d < b;
    assert d >= 1 ==> b * d >= b;
    assert d <= -1 ==> b * d <= -b;
  }

  lemma ModUnique(x: int, b: int, q: int, r: int)
    requires 0 < b && x == b * q + r && 0 <= r < b
    ensures x % b == r
  {
    DivUnique(x, b, q, r);
    assert x == b * (x / b) + x % b;
  }

  lemma DivStep(x: int, b: int)
    requires 0 < b <= x
    ensures x / b == (x - b) / b + 1
  {
    var q, r := (x - b) / b, (x - b) % b;
    assert b * (q + 1) == b * q + b;
    DivUnique(x, b, q + 1, r);
  }

  /** Division by repeated subtraction, which keeps induction proofs linear. */
  function Quot(x: nat, b: nat): (r: nat)
    requires 0 < b
  {
    if x < b then 0 else 1 + Quot(x - b, b)
  }

  lemma {:induction false} QuotIsDiv(x: nat, b: nat)
    requires 0 < b
    ensures Quot(x, b) == x / b
  {
    if x < b {
      DivUnique(x, b, 0, x);
    } else {
      QuotIsDiv(x - b, b);
      DivStep(x, b);
    }
  }

  lemma {:induction false} QuotMonotone(x: nat, y: nat, b: nat)
    requires 0 < b && x <= y
    ensures Quot(x, b) <= Quot(y, b)
  {
    if x >= b { QuotMonotone(x - b, y - b, b); }
  }

  predicate Distinct<T(==)>(s: seq<T>) { forall i, j :: 0 <= i < j < |s| ==> s[i] != s[j] }
}
