/// Bytes, and facts about products and concatenations that the solver is better given than left to find.
module Arithmetic {

  type Byte = b: int | 0 <= b < 256

  function Abs(x: int): nat { if x < 0 then -x else x }

  lemma Distribute(x: int, y: int, p: int)
    ensures (x + y) * p == x * p + y * p
    ensures (x - y) * p == x * p - y * p
  {
  }

  lemma MulAtLeast(k: nat, p: nat)
    requires p >= 1
    ensures k * p >= k
  {
  }

  lemma MulMonotone(x: int, y: int, p: nat)
    requires x <= y
    ensures x * p <= y * p
  {
  }

  lemma MulNonNegative(x: nat, y: nat)
    ensures x * y >= 0
  {
  }

  lemma MulAssoc(x: int, y: int, z: int)
    ensures (x * y) * z == x * (y * z)
  {
  }

  lemma Quotient(v: int, d: nat)
    requires d > 0
    ensures v == v / d * d + v % d && 0 <= v % d < d
  {
  }

  lemma QuotientIs(v: int, d: nat, q: int, r: int)
    requires d > 0 && v == q * d + r && 0 <= r < d
    ensures v / d == q && v % d == r
  {
    Quotient(v, d);
    SameQuotient(d, v / d, v % d, q, r);
  }

  lemma DivTwice(v: nat, p: nat, q: nat)
    requires p > 0 && q > 0
    ensures p * q > 0 && v / p / q == v / (p * q)
  {
    MulAtLeast(p, q);
    Quotient(v, p);
    Quotient(v / p, q);
    var a, b, c := v / p / q, v / p % q, v % p;
    Distribute(a * q, b, p);
    MulAssoc(a, q, p);
    MulMonotone(b, q - 1, p);
    Distribute(q, 1, p);
    QuotientIs(v, p * q, a, b * p + c);
  }

  lemma SameQuotient(d: nat, q1: int, r1: int, q2: int, r2: int)
    requires q1 * d + r1 == q2 * d + r2 && 0 <= r1 < d && 0 <= r2 < d
    ensures q1 == q2 && r1 == r2
  {
    Distribute(q1, q2, d);
    Distribute(q2, q1, d);
    if q1 > q2 {
      MulMonotone(1, q1 - q2, d);
    } else if q2 > q1 {
      MulMonotone(1, q2 - q1, d);
    }
  }

  function Pow2(n: nat): (r: nat)
    ensures r > 0
  {
    if n == 0 then 1 else 2 * Pow2(n - 1)
  }

  lemma {:induction false} Pow2Add(a: nat, b: nat)
    ensures Pow2(a + b) == Pow2(a) * Pow2(b)
  {
    if a > 0 {
      Pow2Add(a - 1, b);
      assert 2 * (Pow2(a - 1) * Pow2(b)) == 2 * Pow2(a - 1) * Pow2(b);
    }
  }

  lemma Pow2Known()
    ensures Pow2(31) == 0x8000_0000 && Pow2(32) == 0x1_0000_0000
  {
    assert Pow2(8) == 256;
    Pow2Add(8, 8);
    Pow2Add(16, 8);
    assert Pow2(7) == 128;
    Pow2Add(24, 7);
  }

  lemma Joined<T>(xs: seq<T>, ys: seq<T>, zs: seq<T>)
    ensures (xs + ys) + zs == xs + (ys + zs)
    ensures |ys + zs| == |ys| + |zs|
  {
  }
}
