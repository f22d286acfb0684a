/// What each data-processing instruction computes, from the bits and the numbers its
/// operands stand for (ARM DDI 0100, sections A4.1 and A5.1).
module Operations {
  import opened Arithmetic
  import opened Alu
  import opened Shifter
  import opened CpuState
  import opened Arm

  /** Bit `k` is set. */
  predicate Has(w: int, k: nat) { w / Pow2(k) % 2 == 1 }

  /** The word read in two's complement. */
  function Signed(w: int): int { (w + 0x8000_0000) % 0x1_0000_0000 - 0x8000_0000 }

  predicate OutOfRange(v: int) { v < -0x8000_0000 || v >= 0x8000_0000 }

  // ------------------------------------------------------------------ bits

  lemma HalfBit(w: int, k: nat)
    requires k > 0
    ensures Has(w, k) == Has(w / 2, k - 1)
  {
    HalveFirst(w, k - 1);
  }

  lemma {:induction false} HalveFirst(w: int, k: nat)
    ensures w / 2 / Pow2(k) == w / Pow2(k + 1)
  {
    if k > 0 {
      HalveFirst(w, k - 1);
      HalveAgain(w / 2, k - 1);
      HalveAgain(w, k);
    }
  }

  lemma LowBit(w: int)
    ensures Has(w, 0) == (w % 2 == 1)
  {
    assert Pow2(0) == 1;
  }

  lemma {:induction false} BitwiseAt(f: (bool, bool) -> bool, a: nat, b: nat, n: nat, k: nat)
    requires k < n
    ensures Has(Bitwise(f, a, b, n), k) == f(Has(a, k), Has(b, k))
    decreases n
  {
    LowBit(a);
    LowBit(b);
    LowBit(Bitwise(f, a, b, n));
    if k > 0 {
      HalfBit(a, k);
      HalfBit(b, k);
      HalfBit(Bitwise(f, a, b, n), k);
      BitwiseAt(f, a / 2, b / 2, n - 1, k - 1);
    }
    hide Has;
  }

  lemma NotAt(a: Word, k: nat)
    requires k < 32
    ensures Has(Not(a), k) == !Has(a, k)
  {
    Pow2Known();
    Pow2Add(k, 31 - k);
    Complement(a, Pow2(k), Pow2(31 - k));
    hide Pow2;
  }

  lemma Complement(a: int, p: nat, m: nat)
    requires p > 0 && p * m == SIGN
    ensures (BASE - 1 - a) / p % 2 == 1 <==> a / p % 2 != 1
  {
    var q, r := a / p, a % p;
    Quotient(a, p);
    Distribute(2 * m, q + 1, p);
    Distribute(q, 1, p);
    MulAssoc(2, m, p);
    QuotientIs(BASE - 1 - a, p, 2 * m - q - 1, p - 1 - r);
    Parity(m, q);
  }

  lemma Parity(m: int, q: int)
    ensures (2 * m - q - 1) % 2 == 1 <==> q % 2 != 1
    ensures (q - 2 * m) % 2 == q % 2
  {
  }

  /** A word is zero exactly if no bit is set. */
  lemma {:induction false} NoBits(w: nat, n: nat)
    requires w < Pow2(n)
    ensures w == 0 <==> forall k: nat :: k < n ==> !Has(w, k)
  {
    if n > 0 {
      NoBits(w / 2, n - 1);
      LowBit(w);
      forall k: nat | 0 < k < n ensures Has(w, k) == Has(w / 2, k - 1) { HalfBit(w, k); }
      if w > 0 && w % 2 == 0 {
        var k: nat :| k < n - 1 && Has(w / 2, k);
        assert Has(w, k + 1);
      }
      if w == 0 {
        forall k: nat | k < n ensures !Has(w, k) { if k > 0 { assert !Has(w / 2, k - 1); } }
      }
    }
  }

  /** A one-bit shift, bit by bit. */
  lemma OneBitAt(shift: Shift, v: Word, k: nat)
    requires k < 32
    ensures Has(OneBit(shift, v).0, k) ==
            match shift
            case LSL => k > 0 && Has(v, k - 1)
            case LSR => k < 31 && Has(v, k + 1)
            case ASR => Has(v, if k < 31 then k + 1 else 31)
            case ROR => Has(v, if k < 31 then k + 1 else 0)
    ensures OneBit(shift, v).1 == Has(v, if shift.LSL? then 31 else 0)
  {
    Pow2Known();
    LowBit(v);
    HalfBit(v, k + 1);
    LowBit(OneBit(shift, v).0);
    TopAt(v);
    if k > 0 {
      HalfBit(OneBit(shift, v).0, k);
    }
    match shift
    case LSL =>
      if k > 0 { Dropped(v, k - 1); }
    case LSR =>
      if k == 31 { TopAt(v / 2); }
    case ASR =>
      TopSet(v / 2, k, Negative(v));
    case ROR =>
      TopSet(v / 2, k, v % 2 == 1);
  }

  lemma TopAt(v: Word)
    ensures Has(v, 31) == (v >= 0x8000_0000)
  {
    Pow2Known();
  }

  /** Bit 31 weighs nothing below. */
  lemma Dropped(v: int, k: nat)
    requires k < 31
    ensures Has(v - SIGN, k) == Has(v, k)
  {
    Pow2Known();
    Pow2Add(k, 30 - k);
    assert Pow2(31) == 2 * Pow2(30);
    Lower(v, Pow2(k), Pow2(30 - k));
    hide Pow2;
  }

  lemma Lower(v: int, p: nat, m: nat)
    requires p > 0 && 2 * (p * m) == SIGN
    ensures (v - SIGN) / p % 2 == v / p % 2
  {
    var q, r := v / p, v % p;
    Quotient(v, p);
    MulAssoc(2, m, p);
    Distribute(q, 2 * m, p);
    QuotientIs(v - SIGN, p, q - 2 * m, r);
    Parity(m, q);
  }

  lemma TopSet(h: nat, k: nat, top: bool)
    requires h < SIGN && k < 32
    ensures Has(if top then h + SIGN else h, k) == if k < 31 then Has(h, k) else top
  {
    TopAt(if top then h + SIGN else h);
    if k < 31 && top {
      Dropped(h + SIGN, k);
    }
  }

  /** Any shift by any amount, bit by bit, and the bit it carries out. */
  lemma {:induction false} ShiftAt(shift: Shift, v: Word, n: nat, carryIn: bool, k: nat)
    requires k < 32
    ensures Has(Repeated(shift, v, n, carryIn).0, k) ==
            match shift
            case LSL => k >= n && Has(v, k - n)
            case LSR => k + n < 32 && Has(v, k + n)
            case ASR => Has(v, if k + n < 32 then k + n else 31)
            case ROR => Has(v, (k + n) % 32)
    ensures Repeated(shift, v, n, carryIn).1 ==
            if n == 0 then carryIn
            else match shift
                 case LSL => n <= 32 && Has(v, 32 - n)
                 case LSR => n <= 32 && Has(v, n - 1)
                 case ASR => Has(v, if n <= 32 then n - 1 else 31)
                 case ROR => Has(v, (n - 1) % 32)
  {
    hide Has, OneBit;
    if n > 0 {
      var before := Repeated(shift, v, n - 1, carryIn).0;
      OneBitAt(shift, before, k);
      ShiftAt(shift, v, n - 1, carryIn, if shift.LSL? then 31 else 0);
      match shift
      case LSL => if k > 0 { ShiftAt(shift, v, n - 1, carryIn, k - 1); }
      case LSR => if k < 31 { ShiftAt(shift, v, n - 1, carryIn, k + 1); }
      case ASR => ShiftAt(shift, v, n - 1, carryIn, if k < 31 then k + 1 else 31);
      case ROR => ShiftAt(shift, v, n - 1, carryIn, if k < 31 then k + 1 else 0);
    }
  }

  // ------------------------------------------------------------------ the operands

  /** Where the operands come from: PC reads one word further ahead when a register gives the
      amount, an amount of zero written in the instruction means 32 to the right and one bit
      through the carry for a rotation, and an immediate is a byte rotated by twice its field. */
  lemma OperandsMean(s: Core, d: DataProcessing)
    requires d.Valid()
    ensures Operand1(s, d) == if d.op2.ByRegister? && d.rn == 15 then Offset(s.r[15], 4) else s.r[d.rn]
    ensures d.op2.Immediate? ==> Operand2(s, d) == Repeated(ROR, d.op2.imm, 2 * d.op2.rotate, s.cpsr.c)
    ensures d.op2.ByRegister? ==>
              Operand2(s, d) == Repeated(d.op2.shift,
                                         if d.op2.rm == 15 then Offset(s.r[15], 4) else s.r[d.op2.rm],
                                         s.r[d.op2.rs] % 256, s.cpsr.c)
    ensures d.op2.ByAmount? && (d.op2.amount > 0 || d.op2.shift.LSL?) ==>
              Operand2(s, d) == Repeated(d.op2.shift, s.r[d.op2.rm], d.op2.amount, s.cpsr.c)
    ensures d.op2.ByAmount? && d.op2.amount == 0 && (d.op2.shift.LSR? || d.op2.shift.ASR?) ==>
              Operand2(s, d) == Repeated(d.op2.shift, s.r[d.op2.rm], 32, s.cpsr.c)
    ensures d.op2.ByAmount? && d.op2.amount == 0 && d.op2.shift.ROR? ==>
              var (w, c) := Operand2(s, d);
              c == Has(s.r[d.op2.rm], 0) && w == s.r[d.op2.rm] / 2 + if s.cpsr.c then 0x8000_0000 else 0
  {
    hide Shifting, Repeated, RotateRight;
    match d.op2
    case Immediate(imm, rotate) => RotatedByte(imm, rotate, s.cpsr.c);
    case ByAmount(rm, shift, amount) =>
      ImmediateForms(shift, s.r[rm], amount, s.cpsr.c);
      LowBit(s.r[rm]);
      RotatedThrough(s.r[rm], s.cpsr.c);
    case ByRegister(rm, shift, rs) =>
      ShifterIsRepetition(shift, ReadLate(s, rm), s.r[rs] % 256, s.cpsr.c);
  }

  lemma RotatedThrough(v: Word, c: bool)
    ensures Shifting(ROR, v, 0, c, true) == (v / 2 + if c then 0x8000_0000 else 0, v % 2 == 1)
  {
  }

  lemma RotatedByte(imm: Word, rotate: nat, c: bool)
    requires rotate < 16
    ensures Repeated(ROR, imm, 2 * rotate, c)
         == if rotate == 0 then (imm, c) else var v := RotateRight(imm, 2 * rotate); (v, Negative(v))
  {
    RorIsRepetition(imm, 2 * rotate, c);
    hide RotateRight;
  }

  // ------------------------------------------------------------------ results and flags

  /** The instruction leaves `r` in its destination and `r`'s sign and zero, `carry` and
      `overflow` in the flags: TST, TEQ, CMP and CMN flags only, the others flags with the S
      bit only, except that a result in PC takes the saved status instead. */
  predicate Leaves(s: Core, m: Ram, d: DataProcessing, r: Word, carry: bool, overflow: bool)
    requires d.Valid()
  {
    var o := ExecDataProcessing(s, m, d);
    var flagged := s.cpsr.(n := r >= 0x8000_0000, z := r == 0, c := carry, v := overflow);
    if 8 <= d.opcode <= 11 then
      o == Next(if d.s || d.opcode >= 10 then s.(cpsr := flagged) else s, m)
    else if d.rd != 15 then
      o == Next(if d.s then s.(r := s.r[d.rd := r], cpsr := flagged) else s.(r := s.r[d.rd := r]), m)
    else if d.s then
      o == Jump(RestoreCpsr(s.(r := s.r[15 := r], cpsr := flagged, irqDelay := 1)), m)
    else o == Jump(s.(r := s.r[15 := r]), m)
  }

  /** Additions and subtractions are those of the numbers modulo the width, with the carry of
      the numbers as they are unsigned and the overflow of the numbers as they are signed. */
  predicate Sums(opcode: nat, a: int, b: int, c: int, r: int, carry: bool, overflow: bool) {
    var x, y, up := Signed(a), Signed(b), 0x1_0000_0000;
    match opcode
    case 2 => r == (a - b) % up && carry == (a >= b) && overflow == OutOfRange(x - y)
    case 3 => r == (b - a) % up && carry == (b >= a) && overflow == OutOfRange(y - x)
    case 4 => r == (a + b) % up && carry == (a + b >= up) && overflow == OutOfRange(x + y)
    case 5 => r == (a + b + c) % up && carry == (a + b + c >= up) && overflow == OutOfRange(x + y + c)
    case 6 => r == (a - b - 1 + c) % up && carry == (a + c > b) && overflow == OutOfRange(x - y - 1 + c)
    case 7 => r == (b - a - 1 + c) % up && carry == (b + c > a) && overflow == OutOfRange(y - x - 1 + c)
    case 10 => r == (a - b) % up && carry == (a >= b) && overflow == OutOfRange(x - y)
    case 11 => r == (a + b) % up && carry == (a + b >= up) && overflow == OutOfRange(x + y)
    case _ => true
  }

  predicate Adding(opcode: nat) { 2 <= opcode <= 7 || 10 <= opcode <= 11 }

  /** Bit `k` of a logical result, from that bit of the operands. */
  function LogicalBit(opcode: nat, x: bool, y: bool): bool {
    match opcode
    case 0 => x && y
    case 8 => x && y
    case 1 => x != y
    case 9 => x != y
    case 12 => x || y
    case 13 => y
    case 14 => x && !y
    case _ => !y
  }

  /** The sixteen instructions: those that add or subtract, and those that work bit by bit,
      take the shifter's carry and leave V alone. */
  lemma DataProcessingMeans(s: Core, m: Ram, d: DataProcessing) returns (r: Word, carry: bool, overflow: bool)
    requires d.Valid()
    ensures Leaves(s, m, d, r, carry, overflow)
    ensures Adding(d.opcode) ==>
              Sums(d.opcode, Operand1(s, d), Operand2(s, d).0, if s.cpsr.c then 1 else 0, r, carry, overflow)
    ensures !Adding(d.opcode) ==> carry == Operand2(s, d).1 && overflow == s.cpsr.v
    ensures !Adding(d.opcode) ==>
              forall k: nat :: k < 32 ==>
                Has(r, k) == LogicalBit(d.opcode, Has(Operand1(s, d), k), Has(Operand2(s, d).0, k))
  {
    var (b, shiftCarry) := Operand2(s, d);
    var a := Operand1(s, d);
    var (value, flags) := Computed(s.cpsr, d.opcode, a, b, shiftCarry);
    r, carry, overflow := value, flags.c, flags.v;
    ComputedSets(s.cpsr, d.opcode, a, b, shiftCarry);
    if Adding(d.opcode) {
      ComputedAdds(s.cpsr, d.opcode, a, b, shiftCarry);
    } else {
      ComputedBits(s.cpsr, d.opcode, a, b, shiftCarry);
    }
    assert Leaves(s, m, d, r, carry, overflow) by {
      hide Operand1, Operand2, Computed, RestoreCpsr, Has, Sums;
    }
    hide *;
  }

  lemma ComputedSets(p: Psr, opcode: nat, a: Word, b: Word, shiftCarry: bool)
    requires opcode < 16
    ensures var (r, q) := Computed(p, opcode, a, b, shiftCarry);
            q == p.(n := r >= 0x8000_0000, z := r == 0, c := q.c, v := q.v)
  {
    hide AddFlags, SubFlags, Not, And, Or, Xor;
  }

  /** Which helper an addition or a subtraction goes through. */
  lemma HelperOf(p: Psr, opcode: nat, a: Word, b: Word, shiftCarry: bool)
    requires Adding(opcode)
    ensures var (r, q) := Computed(p, opcode, a, b, shiftCarry);
            (r, q.c, q.v) == (if opcode == 4 || opcode == 11 then AddFlags(a, b, false)
                              else if opcode == 5 then AddFlags(a, b, p.c)
                              else if opcode == 3 || opcode == 7 then SubFlags(b, a, opcode == 3 || p.c)
                              else SubFlags(a, b, opcode != 6 || p.c))
  {
    hide AddFlags, SubFlags, Not, And, Or, Xor;
  }

  lemma ComputedAdds(p: Psr, opcode: nat, a: Word, b: Word, shiftCarry: bool)
    requires Adding(opcode)
    ensures var (r, q) := Computed(p, opcode, a, b, shiftCarry);
            Sums(opcode, a, b, if p.c then 1 else 0, r, q.c, q.v)
  {
    HelperOf(p, opcode, a, b, shiftCarry);
    var (r, q) := Computed(p, opcode, a, b, shiftCarry);
    hide Computed, AddFlags, SubFlags;
    if opcode == 4 || opcode == 5 || opcode == 11 {
      AddMeans(a, b, opcode == 5 && p.c);
      SumsAdd(opcode, a, b, p.c, r, q.c, q.v);
    } else if opcode == 3 || opcode == 7 {
      SubMeans(b, a, opcode == 3 || p.c);
      SumsReversed(opcode, a, b, p.c, r, q.c, q.v);
    } else {
      SubMeans(a, b, opcode != 6 || p.c);
      SumsSubtract(opcode, a, b, p.c, r, q.c, q.v);
    }
  }

  lemma SumsAdd(opcode: nat, a: int, b: int, c: bool, r: int, carry: bool, overflow: bool)
    requires opcode == 4 || opcode == 5 || opcode == 11
    requires var carryIn := if opcode == 5 && c then 1 else 0;
             && r == (a + b + carryIn) % 0x1_0000_0000 && carry == (a + b + carryIn >= 0x1_0000_0000)
             && overflow == OutOfRange(Signed(a) + Signed(b) + carryIn)
    ensures Sums(opcode, a, b, if c then 1 else 0, r, carry, overflow)
  {
    hide OutOfRange, Signed;
  }

  lemma SumsSubtract(opcode: nat, a: int, b: int, c: bool, r: int, carry: bool, overflow: bool)
    requires opcode == 2 || opcode == 6 || opcode == 10
    requires var borrow := if opcode == 6 && !c then 1 else 0;
             && r == (a - b - borrow) % 0x1_0000_0000 && carry == (a - b - borrow >= 0)
             && overflow == OutOfRange(Signed(a) - Signed(b) - borrow)
    ensures Sums(opcode, a, b, if c then 1 else 0, r, carry, overflow)
  {
    hide OutOfRange, Signed;
  }

  lemma SumsReversed(opcode: nat, a: int, b: int, c: bool, r: int, carry: bool, overflow: bool)
    requires opcode == 3 || opcode == 7
    requires var borrow := if opcode == 7 && !c then 1 else 0;
             && r == (b - a - borrow) % 0x1_0000_0000 && carry == (b - a - borrow >= 0)
             && overflow == OutOfRange(Signed(b) - Signed(a) - borrow)
    ensures Sums(opcode, a, b, if c then 1 else 0, r, carry, overflow)
  {
    hide OutOfRange, Signed;
  }

  lemma AddMeans(a: Word, b: Word, carryIn: bool)
    ensures var (r, c, v) := AddFlags(a, b, carryIn);
            var sum: int, signed := a + b + if carryIn then 1 else 0, Signed(a) + Signed(b) + if carryIn then 1 else 0;
            r == sum % 0x1_0000_0000 && c == (sum >= 0x1_0000_0000) && v == OutOfRange(signed)
  {
  }

  lemma SubMeans(a: Word, b: Word, carryIn: bool)
    ensures var (r, c, v) := SubFlags(a, b, carryIn);
            var borrow := if carryIn then 0 else 1;
            && r == (a - b - borrow) % 0x1_0000_0000 && c == (a - b - borrow >= 0)
            && v == OutOfRange(Signed(a) - Signed(b) - borrow)
  {
  }

  lemma ResultOf(p: Psr, opcode: nat, a: Word, b: Word, shiftCarry: bool)
    requires opcode < 16 && !Adding(opcode)
    ensures var (r, q) := Computed(p, opcode, a, b, shiftCarry);
            && q.c == shiftCarry && q.v == p.v
            && r == (if opcode == 0 || opcode == 8 then And(a, b)
                     else if opcode == 1 || opcode == 9 then Xor(a, b)
                     else if opcode == 12 then Or(a, b)
                     else if opcode == 13 then b
                     else if opcode == 14 then And(a, Not(b))
                     else Not(b))
  {
    hide AddFlags, SubFlags, Not, And, Or, Xor;
  }

  lemma ComputedBits(p: Psr, opcode: nat, a: Word, b: Word, shiftCarry: bool)
    requires opcode < 16 && !Adding(opcode)
    ensures var (r, q) := Computed(p, opcode, a, b, shiftCarry);
            && q.c == shiftCarry && q.v == p.v
            && forall k: nat :: k < 32 ==> Has(r, k) == LogicalBit(opcode, Has(a, k), Has(b, k))
  {
    ResultOf(p, opcode, a, b, shiftCarry);
    hide *;
    forall k: nat | k < 32
      ensures Has(Computed(p, opcode, a, b, shiftCarry).0, k) == LogicalBit(opcode, Has(a, k), Has(b, k))
    {
      NotAt(b, k);
      AndOrXorAt(a, b, k);
      AndOrXorAt(a, Not(b), k);
      LogicalBits(opcode, Has(a, k), Has(b, k));
    }
  }

  lemma LogicalBits(opcode: nat, x: bool, y: bool)
    requires opcode < 16 && !Adding(opcode)
    ensures LogicalBit(opcode, x, y)
         == if opcode == 0 || opcode == 8 then x && y
            else if opcode == 1 || opcode == 9 then x != y
            else if opcode == 12 then x || y
            else if opcode == 13 then y
            else if opcode == 14 then x && !y
            else !y
  {
  }

  lemma AndOrXorAt(a: Word, b: Word, k: nat)
    requires k < 32
    ensures Has(And(a, b), k) == (Has(a, k) && Has(b, k))
    ensures Has(Or(a, b), k) == (Has(a, k) || Has(b, k))
    ensures Has(Xor(a, b), k) == (Has(a, k) != Has(b, k))
  {
    LogicalAt((x, y) => x && y, a, b, k);
    LogicalAt((x, y) => x || y, a, b, k);
    LogicalAt((x, y) => x != y, a, b, k);
    hide Has, Logical;
  }

  lemma LogicalAt(f: (bool, bool) -> bool, a: Word, b: Word, k: nat)
    requires k < 32
    ensures Has(Logical(f, a, b), k) == f(Has(a, k), Has(b, k))
  {
    BitwiseAt(f, a, b, 32, k);
    hide Has, Bitwise;
  }

  /** TEQ finds equality and TST a common bit: Z is clear exactly if the words differ, or
      share a bit. */
  lemma TestsDecide(s: Core, m: Ram, d: DataProcessing)
    requires d.Valid() && d.s
    ensures var q, a, b := ExecDataProcessing(s, m, d).core.cpsr, Operand1(s, d), Operand2(s, d).0;
            && (d.opcode == 8 ==> (q.z <==> forall k: nat :: k < 32 ==> !(Has(a, k) && Has(b, k))))
            && (d.opcode == 9 ==> (q.z <==> a == b))
  {
    var r, carry, overflow := DataProcessingMeans(s, m, d);
    var a, b := Operand1(s, d), Operand2(s, d).0;
    Pow2Known();
    NoBits(r, 32);
    hide Has, Pow2, ExecDataProcessing, Operand1, Operand2;
    if d.opcode == 9 {
      SameBits(a, b, 32);
    }
  }

  lemma {:induction false} SameBits(a: nat, b: nat, n: nat)
    requires a < Pow2(n) && b < Pow2(n)
    ensures a == b <==> forall k: nat :: k < n ==> Has(a, k) == Has(b, k)
  {
    if n > 0 {
      SameBits(a / 2, b / 2, n - 1);
      LowBit(a);
      LowBit(b);
      forall k: nat | 0 < k < n
        ensures Has(a, k) == Has(a / 2, k - 1) && Has(b, k) == Has(b / 2, k - 1)
      {
        HalfBit(a, k);
        HalfBit(b, k);
      }
      if a % 2 == b % 2 && a != b {
        var k: nat :| k < n - 1 && Has(a / 2, k) != Has(b / 2, k);
        assert Has(a, k + 1) != Has(b, k + 1);
      }
      assert Has(a, 0) == Has(b, 0) <==> a % 2 == b % 2;
    }
  }
}
