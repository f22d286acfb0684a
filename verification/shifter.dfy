/// The barrel shifter equals the one-bit shifts of ARM DDI 0100, section
/// A5.1, repeated: in the result and in the carry, for every amount.
module Shifter {
  import opened Arithmetic
  import opened Alu

  datatype Shift = LSL | LSR | ASR | ROR

  type Shifted = (Word, bool)

  // ------------------------------------------------------- shifts as implemented

  function Lsl(v: Word, amt: nat, carryIn: bool): Shifted {
    if amt == 0 then (v, carryIn)
    else if amt <= 31 then (v * Pow2(amt) % BASE, v / Pow2(32 - amt) % 2 == 1)
    else if amt == 32 then (0, v % 2 == 1)
    else (0, false)
  }

  /** In the immediate form an amount of zero means 32. */
  function Amount(amt: nat, immediate: bool): nat { if immediate && amt == 0 then 32 else amt }

  function Lsr(v: Word, amount: nat, carryIn: bool, immediate: bool): Shifted {
    var amt := Amount(amount, immediate);
    if amt == 0 then (v, carryIn)
    else if amt <= 31 then (LowWord(v / Pow2(amt)), v / Pow2(amt - 1) % 2 == 1)
    else if amt == 32 then (0, Negative(v))
    else (0, false)
  }

  function Asr(v: Word, amount: nat, carryIn: bool, immediate: bool): Shifted {
    var amt := Amount(amount, immediate);
    if amt == 0 then (v, carryIn)
    else if amt <= 31 then (LowWord(TopSigned(v) / Pow2(amt)), v / Pow2(amt - 1) % 2 == 1)
    else if Negative(v) then (BASE - 1, true)
    else (0, false)
  }

  function Ror(v: Word, amt: nat, carryIn: bool, immediate: bool): Shifted {
    if immediate && amt == 0 then (v / 2 + Bit(carryIn) * SIGN, v % 2 == 1)
    else if amt == 0 then (v, carryIn)
    else if amt % 32 == 0 then (v, Negative(v))
    else var r := RotateRight(v, amt % 32); (r, Negative(r))
  }

  function RotateRight(v: Word, n: nat): Word
    requires n <= 32
  {
    LowWord(v / Pow2(n) + v % Pow2(n) * Pow2(32 - n))
  }

  function Shifting(k: Shift, v: Word, amt: nat, carryIn: bool, immediate: bool): Shifted {
    match k
    case LSL => Lsl(v, amt, carryIn)
    case LSR => Lsr(v, amt, carryIn, immediate)
    case ASR => Asr(v, amt, carryIn, immediate)
    case ROR => Ror(v, amt, carryIn, immediate)
  }

  // ------------------------------------------------------------- one bit at a time

  function OneBit(k: Shift, v: Word): Shifted {
    match k
    case LSL => (if Negative(v) then 2 * (v - SIGN) else 2 * v, Negative(v))
    case LSR => (v / 2, v % 2 == 1)
    case ASR => (if Negative(v) then v / 2 + SIGN else v / 2, v % 2 == 1)
    case ROR => (v / 2 + v % 2 * SIGN, v % 2 == 1)
  }

  function Repeated(k: Shift, v: Word, n: nat, carryIn: bool): Shifted {
    if n == 0 then (v, carryIn) else OneBit(k, Repeated(k, v, n - 1, carryIn).0)
  }

  // ------------------------------------------------------------------- arithmetic

  /** Halving after `n` halvings is one more halving. */
  lemma HalveAgain(v: int, n: nat)
    ensures v / Pow2(n) / 2 == v / Pow2(n + 1)
  {
    var p := Pow2(n);
    Quotient(v, p);
    Halves(v / p, v % p, p);
    QuotientIs(v, 2 * p, v / p / 2, v / p % 2 * p + v % p);
  }

  /** Moving the low bit of a quotient into the remainder. */
  lemma Halves(q: int, r: int, p: int)
    requires 0 <= r < p
    ensures q * p + r == q / 2 * (2 * p) + (q % 2 * p + r) && 0 <= q % 2 * p + r < 2 * p
  {
    var h, b := q / 2, q % 2;
    Distribute(2 * h, b, p);
    assert (2 * h) * p == h * (2 * p);
    if b == 1 {
      assert b * p == p;
    } else {
      assert b * p == 0;
    }
  }

  // --------------------------------------------------------------------- the shifts

  lemma {:induction false} LslRepeats(v: Word, n: nat, carryIn: bool)
    requires n <= 32
    ensures Repeated(LSL, v, n, carryIn).0 == LowWord(v * Pow2(n))
  {
    if n > 0 {
      LslRepeats(v, n - 1, carryIn);
      var x := v * Pow2(n - 1);
      assert v * Pow2(n) == 2 * x;
      hide Pow2;
      DoubleLow(x);
    }
  }

  lemma DoubleLow(x: int)
    ensures OneBit(LSL, LowWord(x)).0 == LowWord(2 * x)
  {
    var q, r := x / BASE, x % BASE;
    Quotient(x, BASE);
    if Negative(r) {
      QuotientIs(2 * x, BASE, 2 * q + 1, 2 * r - BASE);
    } else {
      QuotientIs(2 * x, BASE, 2 * q, 2 * r);
    }
  }

  /** The last bit shifted out to the left is bit 32-n of the operand. */
  lemma LslCarry(v: Word, n: nat)
    requires 1 <= n <= 32
    ensures Negative(LowWord(v * Pow2(n - 1))) <==> v / Pow2(32 - n) % 2 == 1
  {
    Pow2Known();
    Pow2Add(32 - n, n - 1);
    hide Pow2;
    var d, m := Pow2(32 - n), Pow2(n - 1);
    Quotient(v, d);
    Aligned(v, v / d, v % d, d, m);
    SignOf(v / d, v % d * m);
  }

  lemma Aligned(v: int, q: int, r: int, d: nat, m: nat)
    requires v == q * d + r && 0 <= r < d && m > 0
    ensures v * m == q * (d * m) + r * m && 0 <= r * m < d * m
  {
    Distribute(q * d, r, m);
    MulAssoc(q, d, m);
    MulMonotone(r + 1, d, m);
    Distribute(r, 1, m);
    MulNonNegative(r, m);
  }

  lemma SignOf(q: int, r: int)
    requires 0 <= r < SIGN
    ensures Negative(LowWord(q * SIGN + r)) <==> q % 2 == 1
  {
    var h := q / 2;
    assert q == 2 * h + q % 2;
    QuotientIs(q * SIGN + r, BASE, h, q % 2 * SIGN + r);
  }

  lemma {:induction false} LsrRepeats(v: Word, n: nat, carryIn: bool)
    ensures Repeated(LSR, v, n, carryIn).0 == v / Pow2(n)
  {
    if n > 0 {
      LsrRepeats(v, n - 1, carryIn);
      HalveAgain(v, n - 1);
    }
  }

  lemma {:induction false} AsrRepeats(v: Word, n: nat, carryIn: bool)
    ensures TopSigned(Repeated(ASR, v, n, carryIn).0) == TopSigned(v) / Pow2(n)
  {
    if n > 0 {
      AsrRepeats(v, n - 1, carryIn);
      HalveAgain(TopSigned(v), n - 1);
    }
  }

  lemma {:induction false} RorRepeats(v: Word, n: nat, carryIn: bool)
    requires n <= 32
    ensures Repeated(ROR, v, n, carryIn).0 == v / Pow2(n) + v % Pow2(n) * Pow2(32 - n)
  {
    if n > 0 {
      RorRepeats(v, n - 1, carryIn);
      RotateAgain(v, n - 1);
    } else {
      assert v % 1 == 0;
    }
  }

  lemma RotateAgain(v: Word, n: nat)
    requires n < 32
    ensures var x := v / Pow2(n) + v % Pow2(n) * Pow2(32 - n);
            x / 2 + x % 2 * SIGN == v / Pow2(n + 1) + v % Pow2(n + 1) * Pow2(32 - (n + 1))
  {
    Pow2Known();
    Pow2Add(n, 31 - n);
    var p, m := Pow2(n), Pow2(31 - n);
    assert Pow2(32 - n) == 2 * m && Pow2(n + 1) == 2 * p;
    hide Pow2;
    Quotient(v, p);
    Halves(v / p, v % p, p);
    QuotientIs(v, 2 * p, v / p / 2, v / p % 2 * p + v % p);
    RotateBit(v / p, v % p, p, m);
  }

  lemma RotateBit(hi: int, lo: int, p: nat, m: nat)
    requires p * m == SIGN
    ensures var x := hi + lo * (2 * m);
            x / 2 + x % 2 * SIGN == hi / 2 + (hi % 2 * p + lo) * m
  {
    var x := hi + lo * (2 * m);
    assert x == 2 * (hi / 2 + lo * m) + hi % 2;
    Distribute(hi % 2 * p, lo, m);
    MulAssoc(hi % 2, p, m);
  }

  /** Every shift, by every amount a register can hold, is the one-bit shift
      repeated that many times; the carry is the last bit shifted out. */
  lemma ShifterIsRepetition(k: Shift, v: Word, amt: nat, carryIn: bool)
    ensures Shifting(k, v, amt, carryIn, false) == Repeated(k, v, amt, carryIn)
  {
    match k
    case LSL => LslIsRepetition(v, amt, carryIn);
    case LSR => LsrIsRepetition(v, amt, carryIn);
    case ASR => AsrIsRepetition(v, amt, carryIn);
    case ROR => RorIsRepetition(v, amt, carryIn);
  }

  lemma {:induction false} LslIsRepetition(v: Word, amt: nat, carryIn: bool)
    ensures Lsl(v, amt, carryIn) == Repeated(LSL, v, amt, carryIn)
  {
    if 1 <= amt <= 32 {
      Pow2Known();
      LslRepeats(v, amt, carryIn);
      LslRepeats(v, amt - 1, carryIn);
      LslCarry(v, amt);
      if amt == 32 {
        Multiple(v);
        assert Pow2(0) == 1;
      }
    } else if amt > 32 {
      LslIsRepetition(v, amt - 1, carryIn);
    }
  }

  lemma Multiple(v: int)
    ensures LowWord(v * BASE) == 0
  {
  }

  lemma {:induction false} LsrIsRepetition(v: Word, amt: nat, carryIn: bool)
    ensures Lsr(v, amt, carryIn, false) == Repeated(LSR, v, amt, carryIn)
  {
    if amt > 32 {
      LsrIsRepetition(v, amt - 1, carryIn);
    } else if amt > 0 {
      LsrRepeats(v, amt, carryIn);
      LsrRepeats(v, amt - 1, carryIn);
      LsrUpTo32(v, amt, Repeated(LSR, v, amt, carryIn).0, Repeated(LSR, v, amt - 1, carryIn).0, carryIn);
      hide Lsr, Pow2;
    }
  }

  lemma LsrUpTo32(v: Word, amt: nat, r: Word, before: Word, carryIn: bool)
    requires 1 <= amt <= 32 && r == v / Pow2(amt) && before == v / Pow2(amt - 1)
    ensures Lsr(v, amt, carryIn, false) == (r, before % 2 == 1)
  {
    Pow2Known();
    TopBitLast(v);
    hide Pow2, Negative;
  }

  lemma TopBitLast(v: Word)
    ensures v / BASE == 0 && v / SIGN == v / SIGN % 2 == if Negative(v) then 1 else 0
  {
  }

  lemma {:induction false} AsrIsRepetition(v: Word, amt: nat, carryIn: bool)
    ensures Asr(v, amt, carryIn, false) == Repeated(ASR, v, amt, carryIn)
  {
    if 1 <= amt <= 32 {
      Pow2Known();
      AsrRepeats(v, amt, carryIn);
      AsrRepeats(v, amt - 1, carryIn);
      SignedLow(Repeated(ASR, v, amt, carryIn).0);
      SignedLow(Repeated(ASR, v, amt - 1, carryIn).0);
      if amt == 32 {
        SignFill(v);
      } else {
        SameParity(v, amt - 1);
      }
    } else if amt > 32 {
      AsrIsRepetition(v, amt - 1, carryIn);
    }
  }

  lemma SignFill(v: Word)
    ensures TopSigned(v) / BASE == TopSigned(v) / SIGN == if Negative(v) then -1 else 0
  {
  }

  lemma SignedLow(w: Word)
    ensures LowWord(TopSigned(w)) == w
    ensures w % 2 == TopSigned(w) % 2
  {
  }

  /** Below bit 32 the signed and the unsigned reading have the same bits. */
  lemma SameParity(v: Word, n: nat)
    requires n <= 31
    ensures TopSigned(v) / Pow2(n) % 2 == v / Pow2(n) % 2
  {
    Pow2Known();
    Pow2Add(n, 31 - n);
    Borrowed(v, Pow2(n), Pow2(31 - n));
  }

  lemma Borrowed(v: int, p: nat, m: nat)
    requires p > 0 && p * m == SIGN
    ensures (v - BASE) / p % 2 == v / p % 2
  {
    var q, r := v / p, v % p;
    Quotient(v, p);
    MulAssoc(2, m, p);
    Distribute(q, 2 * m, p);
    QuotientIs(v - BASE, p, q - 2 * m, r);
    Even(q, m);
  }

  lemma Even(q: int, m: int)
    ensures (q - 2 * m) % 2 == q % 2
  {
  }

  lemma {:induction false} RorIsRepetition(v: Word, amt: nat, carryIn: bool)
    ensures Ror(v, amt, carryIn, false) == Repeated(ROR, v, amt, carryIn)
  {
    if amt > 0 {
      RorPeriod(v, amt, carryIn);
      var n := amt % 32;
      var before := Repeated(ROR, v, amt - 1, carryIn).0;
      assert Negative(OneBit(ROR, before).0) == OneBit(ROR, before).1;
      if n > 0 {
        RorRepeats(v, n, carryIn);
        assert Repeated(ROR, v, n, carryIn).0 == LowWord(Repeated(ROR, v, n, carryIn).0);
      }
    }
  }

  /** Rotation by 32 is the identity, so only the amount modulo 32 matters. */
  lemma {:induction false} RorPeriod(v: Word, amt: nat, carryIn: bool)
    ensures Repeated(ROR, v, amt, carryIn).0 == Repeated(ROR, v, amt % 32, carryIn).0
  {
    hide Repeated;
    if amt >= 32 {
      RotateAll(v, carryIn);
      RepeatedSplit(ROR, v, 32, amt - 32, carryIn);
      RorPeriod(v, amt - 32, carryIn);
    }
  }

  lemma RotateAll(v: Word, carryIn: bool)
    ensures Repeated(ROR, v, 32, carryIn).0 == v
  {
    RorRepeats(v, 32, carryIn);
    Pow2Known();
    assert Pow2(0) == 1;
    hide Repeated;
  }

  lemma {:induction false} RepeatedSplit(k: Shift, v: Word, a: nat, b: nat, carryIn: bool)
    ensures Repeated(k, v, a + b, carryIn).0 == Repeated(k, Repeated(k, v, a, carryIn).0, b, carryIn).0
  {
    if b > 0 {
      RepeatedSplit(k, v, a, b - 1, carryIn);
    }
  }

  /** Immediate forms: LSR #0 and ASR #0 shift by 32, ROR #0 rotates one bit
      through the carry flag. */
  lemma ImmediateForms(k: Shift, v: Word, amt: nat, carryIn: bool)
    ensures k.LSL? || amt > 0 ==> Shifting(k, v, amt, carryIn, true) == Repeated(k, v, amt, carryIn)
    ensures k.LSR? || k.ASR? ==> Shifting(k, v, 0, carryIn, true) == Repeated(k, v, 32, carryIn)
    ensures var (w, c) := Shifting(ROR, v, 0, carryIn, true);
            w + Bit(c) * BASE == (v + Bit(carryIn) * BASE) / 2 + v % 2 * BASE
  {
    ShifterIsRepetition(k, v, amt, carryIn);
    ShifterIsRepetition(k, v, 32, carryIn);
    hide Pow2, Repeated;
  }
}
