/** Fixed-width machine integers of the firmware, as subset types of `int`. */
module Uint {
  type u8 = x: int | 0 <= x < 0x100
  type u16 = x: int | 0 <= x < 0x1_0000
  type i16 = x: int | -0x8000 <= x < 0x8000
  type u32 = x: int | 0 <= x < 0x1_0000_0000
  type u64 = x: int | 0 <= x < 0x1_0000_0000_0000_0000

  /** 256 to the power n: the weight of the n-th least significant byte. */
  function Pow256(n: nat): (r: nat)
    ensures r >= 1
  {
    if n == 0 then 1 else 256 * Pow256(n - 1)
  }

  function Min(a: int, b: int): int
  {
    if a <= b then a else b
  }

  /** Euclidean division is unique: the quotient and remainder of q * d + r are q and r. */
  lemma DivModOf(q: int, d: int, r: int)
    requires d > 0 && 0 <= r < d
    ensures (q * d + r) / d == q && (q * d + r) % d == r
  {
    var n := q * d + r;
    var q', r' := n / d, n % d;
    assert q' * d + r' == q * d + r;
    Distribute(q, q', d);
    AtLeastOnce(q - q', d);
    AtLeastOnce(q' - q, d);
  }

  lemma Distribute(a: int, b: int, d: int)
    ensures a * d - b * d == (a - b) * d
  {
  }

  lemma AtLeastOnce(k: int, d: int)
    requires d > 0
    ensures k >= 1 ==> k * d >= d
  {
  }

  /** Dividing by a and then by b is dividing by a * b. */
  lemma DivDiv(u: nat, a: int, b: int)
    requires a > 0 && b > 0
    ensures u / a / b == u / (a * b)
  {
    var q, r := u / a, u % a;
    var q2, r2 := q / b, q % b;
    assert u == q * a + r;
    assert q == q2 * b + r2;
    assert u == q2 * (a * b) + (r2 * a + r) by {
      assert q * a == (q2 * b + r2) * a;
      assert (q2 * b + r2) * a == q2 * (a * b) + r2 * a;
    }
    assert r2 * a <= (b - 1) * a by { MulLeft(r2, b - 1, a); }
    assert (b - 1) * a == a * b - a;
    DivModOf(q2, a * b, r2 * a + r);
  }

  /** Multiplying by a non-negative factor keeps the order. */
  lemma MulMonotone(x: int, y: int, a: int)
    requires a >= 0
    ensures x <= y ==> x * a <= y * a
  {
    if x <= y {
      MulLeft(x, y, a);
    }
  }

  lemma MulLeft(x: int, y: int, a: int)
    requires x <= y && a >= 0
    ensures x * a <= y * a
  {
  }
}
