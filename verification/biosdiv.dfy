/// The BIOS division routine: sign handling around a shift-subtract loop over
/// registers (GBATEK, "BIOS Arithmetic Functions").
module BiosDiv {
  import opened Arithmetic
  import opened Alu

  function Quot(n: int, d: int): int
    requires d != 0
  {
    if (n < 0) == (d < 0) then Abs(n) / Abs(d) else -(Abs(n) / Abs(d))
  }

  function Rem(n: int, d: int): int
    requires d != 0
  {
    if n < 0 then -(Abs(n) % Abs(d)) else Abs(n) % Abs(d)
  }

  /** Division truncated toward zero, as a relation. */
  predicate Truncates(n: int, d: int, q: int, r: int) {
    n == q * d + r && Abs(r) < Abs(d) && (r == 0 || (r < 0) == (n < 0))
  }

  lemma QuotRemTruncate(n: int, d: int)
    requires d != 0
    ensures Truncates(n, d, Quot(n, d), Rem(n, d))
  {
    Quotient(Abs(n), Abs(d));
    NegatedProduct(Abs(n) / Abs(d), Abs(d));
  }

  lemma NegatedProduct(q: int, d: int)
    ensures (-q) * d == -(q * d) == q * -d && (-q) * -d == q * d
  {
  }

  /** The relation determines both results. */
  lemma TruncatesUnique(n: int, d: int, q1: int, r1: int, q2: int, r2: int)
    requires d != 0 && Truncates(n, d, q1, r1) && Truncates(n, d, q2, r2)
    ensures q1 == q2 && r1 == r2
  {
    Distribute(q1, q2, d);
    if q1 != q2 {
      if d > 0 {
        if q1 > q2 { MulMonotone(1, q1 - q2, d); } else { MulMonotone(1, q2 - q1, d); Distribute(q2, q1, d); }
      } else {
        NegatedProduct(q1 - q2, -d);
        if q1 > q2 { MulMonotone(1, q1 - q2, -d); } else { MulMonotone(1, q2 - q1, -d); NegatedProduct(q2 - q1, -d); }
      }
    }
  }

  /** RSB rd, rd, #0. */
  function Negate(w: Word): Word { if w == 0 then 0 else BASE - w }

  // ------------------------------------------------------------------ the routine

  /** Quotient, remainder and quotient's magnitude; a zero divisor leaves the numerator as
      remainder. */
  predicate Divides(num: Word, den: Word, r0: Word, r1: Word, r3: Word) {
    if den == 0 then r0 == 0 && r1 == num && r3 == 0
    else
      var n, d := TopSigned(num), TopSigned(den);
      r0 == LowWord(Quot(n, d)) && TopSigned(r1) == Rem(n, d) && r3 == Abs(Quot(n, d))
  }

  /** Swi 0x06. */
  method Div(num: Word, den: Word) returns (r0: Word, r1: Word, r3: Word)
    ensures Divides(num, den, r0, r1, r3)
  {
    var r5 := Xor(num, den);
    LogicalSign((x, y) => x != y, num, den);
    var r4 := num;
    r0 := if Negative(num) then Negate(num) else num;
    r1 := if Negative(den) then Negate(den) else den;
    ghost var n, d := r0, r1;
    assert n == Abs(TopSigned(num)) && d == Abs(TopSigned(den)) && n <= SIGN && d <= SIGN;
    r0, r3 := Magnitudes(r0, r1);
    ghost var q, r := r3, r0;
    if Negative(r4) {
      r0 := Negate(r0);
    }
    r1 := r0;
    r0 := r3;
    if Negative(r5) {
      r0 := Negate(r0);
    }
    r3 := r0;
    if Negative(r3) {
      r3 := Negate(r3);
    }
    if den != 0 {
      SignsApplied(num, den, q, r);
    }
  }

  /** Swi 0x07 takes its operands the other way round. */
  method DivArm(den: Word, num: Word) returns (r0: Word, r1: Word, r3: Word)
    ensures Divides(num, den, r0, r1, r3)
  {
    r0, r1, r3 := Div(num, den);
  }

  lemma SignsApplied(num: Word, den: Word, q: Word, r: Word)
    requires den != 0
    requires q == Abs(TopSigned(num)) / Abs(TopSigned(den)) && r == Abs(TopSigned(num)) % Abs(TopSigned(den))
    requires q <= SIGN && r < SIGN
    ensures var n, d := TopSigned(num), TopSigned(den);
            var low := if Negative(num) != Negative(den) then Negate(q) else q;
            && low == LowWord(Quot(n, d))
            && TopSigned(if Negative(num) then Negate(r) else r) == Rem(n, d)
            && (if Negative(low) then Negate(low) else low) == Abs(Quot(n, d))
  {
    MagnitudeWord(q, Negative(num) != Negative(den));
    RemainderWord(r);
    hide LowWord, Negate;
  }

  /** A magnitude with its sign put back, and taken off again. */
  lemma MagnitudeWord(q: int, negative: bool)
    requires 0 <= q <= SIGN
    ensures var low := if negative then Negate(q) else q;
            low == LowWord(if negative then -q else q) && (if Negative(low) then Negate(low) else low) == q
  {
  }

  lemma RemainderWord(r: int)
    requires 0 <= r < SIGN
    ensures TopSigned(r) == r && TopSigned(Negate(r)) == -r
  {
  }

  /** Align the divisor, then subtract and shift: remainder and quotient. */
  method Magnitudes(num: Word, den: Word) returns (r0: Word, r3: Word)
    requires num <= SIGN && den <= SIGN
    ensures den == 0 ==> r0 == num && r3 == 0
    ensures den != 0 ==> r3 == num / den && r0 == num % den && r3 <= SIGN && r0 < SIGN
  {
    r0 := num;
    r3 := 0;
    var r1 := den;
    if r1 == 0 {
      return;
    }
    ghost var k: nat;
    var r2: Word;
    r2, k := Align(r0, r1);
    while true
      invariant r2 == r1 * Pow2(k) && r1 <= r2
      invariant num == r3 * (2 * r2) + r0 && r0 < 2 * r2 && r3 <= num
      decreases k
    {
      hide *;
      var carry := r0 >= r2;
      SubtractStep(num, r3, r2, r0);
      if carry {
        r0 := r0 - r2;
      }
      r3 := r3 + r3 + if carry then 1 else 0;
      HalfShift(r1, k);
      r2 := r2 / 2;
      if r2 < r1 {
        assert k == 0;
        UnshiftedIs(r1);
        QuotientIs(num, den, r3, r0);
        break;
      }
      k := k - 1;
    }
  }

  /** Shift the divisor left until it reaches the numerator.  The loop has a
      second exit, on a carry out of bit 31; the assertion shows it is dead. */
  method Align(r0: Word, r1: Word) returns (r2: Word, ghost k: nat)
    requires r0 <= SIGN && 0 < r1 <= SIGN
    ensures r2 == r1 * Pow2(k) && r1 <= r2 && r0 <= r2
  {
    r2 := r1;
    k := 0;
    while r2 < r0
      invariant r2 == r1 * Pow2(k) && r1 <= r2
      decreases r0 - r2
    {
      assert !Negative(r2);
      DoubleShift(r1, k);
      hide Pow2;
      r2 := 2 * r2;
      k := k + 1;
    }
  }

  lemma SubtractStep(num: Word, r3: Word, r2: Word, r0: Word)
    requires num == r3 * (2 * r2) + r0 && r0 < 2 * r2 && 0 < r2 && num <= SIGN
    ensures var c: int := if r0 >= r2 then 1 else 0;
            var q: int, r: int := 2 * r3 + c, r0 - c * r2;
            && num == q * r2 + r && 0 <= r < r2 && q <= num
            && c * r2 == if r0 >= r2 then r2 else 0
  {
    var c: int := if r0 >= r2 then 1 else 0;
    StepBits(r3, r2, c);
    MulAtLeast(2 * r3 + c, r2);
  }

  lemma UnshiftedIs(x: nat)
    ensures x * Pow2(0) == x
  {
  }

  lemma DoubleShift(x: nat, k: nat)
    ensures x * Pow2(k + 1) == 2 * (x * Pow2(k))
  {
  }

  lemma StepBits(q: int, d: int, c: nat)
    requires c <= 1
    ensures q * (2 * d) == (2 * q + c) * d - c * d && c * d == if c == 1 then d else 0
  {
    Distribute(2 * q, c, d);
  }

  /** Half an unshifted divisor is below it, half a shifted one is not. */
  lemma HalfShift(x: nat, k: nat)
    requires x > 0
    ensures k > 0 ==> x * Pow2(k) / 2 == x * Pow2(k - 1) >= x
    ensures k == 0 ==> x * Pow2(k) / 2 < x
  {
    if k > 0 {
      DoubleShift(x, k - 1);
      MulAtLeast(Pow2(k - 1), x);
      MulMonotone(1, Pow2(k - 1), x);
    }
  }
}
