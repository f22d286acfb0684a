/// The division routine as machine code: its words, decoded and executed by the CPU, leave
/// in the registers what the routine promises.
module DivCode {
  import opened Options
  import opened Arithmetic
  import opened Alu
  import opened Shifter
  import opened Arm
  import opened Encoding
  import opened BiosDiv

  // ------------------------------------------------------------------ the routine

  /** A line of assembly: an instruction under a condition, or a branch to another line. */
  datatype Line = Ins(op: Op, cond: Nibble) | To(line: nat, cond: Nibble)

  const EQUAL: Nibble := 0
  const CARRY: Nibble := 2
  const CLEAR: Nibble := 3
  const MINUS: Nibble := 4

  const ALIGN := 11
  const LOOP := 15
  const DONE := 21
  const LAST := 30

  /** Registers 4 and 5. */
  const SAVED: Half := 0x30

  /** The routine up to its last branch. */
  function Routine(k: nat): Line
    requires k <= LAST
  {
    if k < ALIGN then Signs(k) else if k < DONE then Divide(k) else Results(k)
  }

  function Signs(k: nat): Line {
    match k
    case 0 => Ins(Multiple(STMFD, 13, SAVED), ALWAYS)
    case 1 => Ins(Register(EORR, 5, 0, 1), ALWAYS)
    case 2 => Ins(Register(MOVR, 4, 0, 0), ALWAYS)
    case 3 => Ins(PlainImm(CMP, 0, 0, 0), ALWAYS)
    case 4 => Ins(PlainImm(RSB, 0, 0, 0), MINUS)
    case 5 => Ins(PlainImm(CMP, 0, 1, 0), ALWAYS)
    case 6 => Ins(PlainImm(RSB, 1, 1, 0), MINUS)
    case 7 => Ins(RotImm(MOV, 3, 0, 0), ALWAYS)
    case 8 => Ins(Register(MOVR, 2, 0, 1), ALWAYS)
    case 9 => Ins(PlainImm(CMP, 0, 2, 0), ALWAYS)
    case _ => To(DONE, EQUAL)
  }

  function Divide(k: nat): Line {
    match k
    case 11 => Ins(Register(CMPR, 0, 2, 0), ALWAYS)
    case 12 => To(LOOP, CARRY)
    case 13 => Ins(ShiftConst(LSLSI, 2, 2, 1), ALWAYS)
    case 14 => To(ALIGN, CLEAR)
    case 15 => Ins(Register(CMPR, 0, 0, 2), ALWAYS)
    case 16 => Ins(Register(SUBR, 0, 0, 2), CARRY)
    case 17 => Ins(Register(ADCSR, 3, 3, 3), ALWAYS)
    case 18 => Ins(ShiftConst(LSRI, 2, 2, 1), ALWAYS)
    case 19 => Ins(Register(CMPR, 0, 2, 1), ALWAYS)
    case _ => To(LOOP, CARRY)
  }

  function Results(k: nat): Line {
    match k
    case 21 => Ins(PlainImm(CMP, 0, 4, 0), ALWAYS)
    case 22 => Ins(PlainImm(RSB, 0, 0, 0), MINUS)
    case 23 => Ins(Register(MOVR, 1, 0, 0), ALWAYS)
    case 24 => Ins(Register(MOVR, 0, 0, 3), ALWAYS)
    case 25 => Ins(PlainImm(CMP, 0, 5, 0), ALWAYS)
    case 26 => Ins(PlainImm(RSB, 0, 0, 0), MINUS)
    case 27 => Ins(Register(MOVR, 3, 0, 0), ALWAYS)
    case 28 => Ins(PlainImm(CMP, 0, 3, 0), ALWAYS)
    case 29 => Ins(PlainImm(RSB, 3, 3, 0), MINUS)
    case _ => Ins(Multiple(LDMFD, 13, SAVED), ALWAYS)
  }

  // ------------------------------------------------------------------ what it works on

  /** The registers the routine computes with, and the flags. */
  datatype Work = Work(r0: Word, r1: Word, r2: Word, r3: Word, r4: Word, r5: Word, p: Psr) {
    function Get(i: nat): Word {
      if i == 0 then r0 else if i == 1 then r1 else if i == 2 then r2 else if i == 3 then r3 else if i == 4 then r4
          else r5
    }

    function Set(i: nat, v: Word): Work {
      if i == 0 then this.(r0 := v) else if i == 1 then this.(r1 := v) else if i == 2 then this.(r2 := v)
      else if i == 3 then this.(r3 := v) else if i == 4 then this.(r4 := v) else this.(r5 := v)
    }
  }

  /** Data processing on these registers alone. */
  predicate Local(d: DataProcessing) {
    d.Valid() && d.rn < 6 && d.rd < 6 && !d.op2.ByRegister? && (d.op2.ByAmount? ==> d.op2.rm < 6)
  }

  function Second(w: Work, op2: Arm.Operand): Shifted
    requires op2.Immediate? ==> op2.imm < 256 && op2.rotate < 16
  {
    match op2
    case Immediate(imm, rotate) =>
      if rotate == 0 then (imm, w.p.c) else var v := RotateRight(imm, 2 * rotate); (v, Negative(v))
    case ByAmount(rm, shift, amount) => Shifting(shift, w.Get(rm), amount, w.p.c, true)
    case ByRegister(rm, shift, rs) => Shifting(shift, w.Get(rm), w.Get(rs) % 256, w.p.c, false)
  }

  function Did(d: DataProcessing, w: Work): Work
    requires Local(d)
  {
    var (b, carry) := Second(w, d.op2);
    var (result, flags) := Computed(w.p, d.opcode, w.Get(d.rn), b, carry);
    var w1 := if SetsFlags(d) then w.(p := flags) else w;
    if Discards(d.opcode) then w1 else w1.Set(d.rd, result)
  }

  function DataOf(op: Op): DataProcessing
    requires InRange(op) && Meaning(op).Data?
  {
    Meaning(op).data
  }

  predicate Computes(op: Op) { InRange(op) && Meaning(op).Data? && Local(DataOf(op)) }

  // ------------------------------------------------------------------ what each mnemonic does

  lemma MovesImmediate(rd: nat, w: Work)
    requires rd < 6
    ensures Computes(RotImm(MOV, rd, 0, 0)) && Did(DataOf(RotImm(MOV, rd, 0, 0)), w) == w.Set(rd, 0)
  {
    ZeroRotation();
    hide FirstRotation, Unrotated, RotateRight;
  }

  lemma ZeroRotation()
    ensures Unrotated(0, 0) == 0 && FirstRotation(0, 0) == Some(0)
  {
    assert RotateRight(0, 32) == 0;
    hide RotateRight;
  }

  lemma Moves(rd: nat, rm: nat, w: Work)
    requires rd < 6 && rm < 6
    ensures Computes(Register(MOVR, rd, 0, rm)) && Did(DataOf(Register(MOVR, rd, 0, rm)), w) == w.Set(rd, w.Get(rm))
  {
  }

  lemma Differs(rd: nat, rn: nat, rm: nat, w: Work)
    requires rd < 6 && rn < 6 && rm < 6
    ensures Computes(Register(EORR, rd, rn, rm))
    ensures Did(DataOf(Register(EORR, rd, rn, rm)), w) == w.Set(rd, Xor(w.Get(rn), w.Get(rm)))
  {
    hide Logical;
  }

  /** The flags of a comparison. */
  predicate Shows(p: Psr, q: Psr, a: Word, b: Word) {
    q.t == p.t && q.c == (a >= b) && q.z == (a == b) && (b == 0 ==> q.n == Negative(a))
  }

  lemma ComparesZero(rn: nat, w: Work)
    requires rn < 6
    ensures Computes(PlainImm(CMP, 0, rn, 0))
    ensures var w' := Did(DataOf(PlainImm(CMP, 0, rn, 0)), w); w' == w.(p := w'.p) && Shows(w.p, w'.p, w.Get(rn), 0)
  {
  }

  lemma Compares(rn: nat, rm: nat, w: Work)
    requires rn < 6 && rm < 6
    ensures Computes(Register(CMPR, 0, rn, rm))
    ensures var w' := Did(DataOf(Register(CMPR, 0, rn, rm)), w);
            w' == w.(p := w'.p) && Shows(w.p, w'.p, w.Get(rn), w.Get(rm))
  {
  }

  lemma Negates(rd: nat, w: Work)
    requires rd < 6
    ensures Computes(PlainImm(RSB, rd, rd, 0))
    ensures Did(DataOf(PlainImm(RSB, rd, rd, 0)), w) == w.Set(rd, Negate(w.Get(rd)))
  {
  }

  lemma Subtracts(rd: nat, rm: nat, w: Work)
    requires rd < 6 && rm < 6 && w.Get(rd) >= w.Get(rm)
    ensures Computes(Register(SUBR, rd, rd, rm))
    ensures Did(DataOf(Register(SUBR, rd, rd, rm)), w) == w.Set(rd, w.Get(rd) - w.Get(rm))
  {
  }

  lemma DoublesWithCarry(rd: nat, w: Work)
    requires rd < 6 && 2 * w.Get(rd) + 1 < BASE
    ensures Computes(Register(ADCSR, rd, rd, rd))
    ensures var w' := Did(DataOf(Register(ADCSR, rd, rd, rd)), w);
            w' == w.Set(rd, 2 * w.Get(rd) + Bit(w.p.c)).(p := w'.p) && w'.p.t == w.p.t
  {
    AdcsIs(rd);
    hide *;
    SumWithCarry(w.p, w.Get(rd));
    DidAdcs(rd, w);
    SetApart(rd, w, Adcs(w.p, w.Get(rd), w.Get(rd)).0, Adcs(w.p, w.Get(rd), w.Get(rd)).1);
  }

  lemma AdcsIs(rd: nat)
    requires rd < 6
    ensures Computes(Register(ADCSR, rd, rd, rd))
    ensures DataOf(Register(ADCSR, rd, rd, rd)) == DataProcessing(0x5, true, rd, rd, ByAmount(rd, LSL, 0))
  {
  }

  lemma DidAdcs(rd: nat, w: Work)
    requires rd < 6 && Local(DataProcessing(0x5, true, rd, rd, ByAmount(rd, LSL, 0)))
    ensures var (r, q) := Adcs(w.p, w.Get(rd), w.Get(rd));
            Did(DataProcessing(0x5, true, rd, rd, ByAmount(rd, LSL, 0)), w) == w.(p := q).Set(rd, r)
  {
    assert Second(w, ByAmount(rd, LSL, 0)) == (w.Get(rd), w.p.c);
    hide Second, Adcs, Work.Get, Work.Set;
  }

  lemma SetApart(rd: nat, w: Work, r: Word, q: Psr)
    ensures w.(p := q).Set(rd, r) == w.Set(rd, r).(p := q)
  {
  }

  lemma SumWithCarry(p: Psr, a: Word)
    requires 2 * a + 1 < BASE
    ensures Adcs(p, a, a).0 == 2 * a + Bit(p.c) && Adcs(p, a, a).1.t == p.t
  {
  }

  lemma Halves(rd: nat, w: Work)
    requires rd < 6
    ensures Computes(ShiftConst(LSRI, rd, rd, 1))
    ensures Did(DataOf(ShiftConst(LSRI, rd, rd, 1)), w) == w.Set(rd, w.Get(rd) / 2)
  {
    var a, d := w.Get(rd), DataOf(ShiftConst(LSRI, rd, rd, 1));
    assert d == DataProcessing(0xD, false, 0, rd, ByAmount(rd, LSR, 1));
    HalvedOne(a, w.p.c);
    hide Lsr, DataOf, Meaning, Work.Get;
  }

  lemma HalvedOne(a: Word, carry: bool)
    ensures Lsr(a, 1, carry, true).0 == a / 2
  {
    assert Pow2(1) == 2;
  }

  lemma Doubles(rd: nat, w: Work)
    requires rd < 6 && !Negative(w.Get(rd))
    ensures Computes(ShiftConst(LSLSI, rd, rd, 1))
    ensures var w' := Did(DataOf(ShiftConst(LSLSI, rd, rd, 1)), w);
            w' == w.Set(rd, 2 * w.Get(rd)).(p := w'.p) && !w'.p.c && w'.p.t == w.p.t
  {
    LslsIs(rd);
    hide *;
    ShiftedOne(w.Get(rd), w.p.c);
    DidLsls(rd, w);
  }

  lemma LslsIs(rd: nat)
    requires rd < 6
    ensures Computes(ShiftConst(LSLSI, rd, rd, 1))
    ensures DataOf(ShiftConst(LSLSI, rd, rd, 1)) == DataProcessing(0xD, true, 0, rd, ByAmount(rd, LSL, 1))
  {
  }

  lemma DidLsls(rd: nat, w: Work)
    requires rd < 6 && Local(DataProcessing(0xD, true, 0, rd, ByAmount(rd, LSL, 1)))
    ensures var (r, carry) := Lsl(w.Get(rd), 1, w.p.c);
            var w' := Did(DataProcessing(0xD, true, 0, rd, ByAmount(rd, LSL, 1)), w);
            w' == w.Set(rd, r).(p := w'.p) && w'.p.c == carry && w'.p.t == w.p.t
  {
    hide Lsl, Work.Get, AddFlags, SubFlags, And, Or, Xor, Not;
  }

  lemma ShiftedOne(a: Word, carry: bool)
    requires !Negative(a)
    ensures Lsl(a, 1, carry) == (2 * a, false)
  {
    assert Pow2(1) == 2;
    Pow2Known();
  }

  // ------------------------------------------------------------------ line by line

  /** Line `k` between the first and the last: the next line and what it leaves. */
  function Turn(k: nat, w: Work): (nat, Work)
    requires 1 <= k < LAST
  {
    match Routine(k)
    case To(line, cond) => (if CheckCond(w.p, cond) then line else k + 1, w)
    case Ins(op, cond) => (k + 1, if Computes(op) && CheckCond(w.p, cond) then Did(DataOf(op), w) else w)
  }

  /** `n` lines, none of them the first or the last. */
  function Iterate(n: nat, k: nat, w: Work): Option<(nat, Work)> {
    if n == 0 then Some((k, w))
    else if !(1 <= k < LAST) then None
    else var (k', w') := Turn(k, w); Iterate(n - 1, k', w')
  }

  lemma IterateFirst(n: nat, k: nat, w: Work)
    requires n > 0
    ensures Iterate(n, k, w) == if 1 <= k < LAST then Iterate(n - 1, Turn(k, w).0, Turn(k, w).1) else None
  {
    hide Turn;
  }

  lemma {:induction false} IterateAdd(n: nat, m: nat, k: nat, w: Work)
    requires Iterate(n, k, w).Some?
    ensures var (k', w') := Iterate(n, k, w).value; Iterate(n + m, k, w) == Iterate(m, k', w')
    decreases n
  {
    hide *;
    if n == 0 {
      Arrived(k, w);
    } else {
      IterateFirst(n, k, w);
      IterateFirst(n + m, k, w);
      var (k1, w1) := Turn(k, w);
      assert Iterate(n - 1, k1, w1) == Iterate(n, k, w);
      IterateAdd(n - 1, m, k1, w1);
    }
  }

  /** An unconditional line. */
  lemma Does(n: nat, k: nat, w: Work, op: Op, w': Work)
    requires 1 <= k < LAST && Routine(k) == Ins(op, ALWAYS) && Computes(op) && w' == Did(DataOf(op), w)
    ensures Iterate(n + 1, k, w) == Iterate(n, k + 1, w')
  {
    hide Routine, Computes, Did, DataOf;
  }

  lemma DoesIf(n: nat, k: nat, w: Work, op: Op, cond: Nibble, w': Work)
    requires 1 <= k < LAST && Routine(k) == Ins(op, cond) && Computes(op)
    requires w' == if CheckCond(w.p, cond) then Did(DataOf(op), w) else w
    ensures Iterate(n + 1, k, w) == Iterate(n, k + 1, w')
  {
    hide Routine, Computes, Did, DataOf, CheckCond;
  }

  lemma Branches(n: nat, k: nat, w: Work, line: nat, cond: Nibble)
    requires 1 <= k < LAST && Routine(k) == To(line, cond)
    ensures Iterate(n + 1, k, w) == Iterate(n, if CheckCond(w.p, cond) then line else k + 1, w)
  {
    hide Routine, CheckCond;
  }

  function Magnitude(a: Word): Word { if Negative(a) then Negate(a) else a }

  /** Compare with zero and negate if negative: the magnitude. */
  lemma TakesMagnitude(n: nat, k: nat, rn: nat, rd: nat, w: Work) returns (w': Work)
    requires 1 <= k < LAST - 1 && rn < 6 && rd < 6
    requires Routine(k) == Ins(PlainImm(CMP, 0, rn, 0), ALWAYS)
            && Routine(k + 1) == Ins(PlainImm(RSB, rd, rd, 0), MINUS)
    ensures Iterate(n + 2, k, w) == Iterate(n, k + 2, w')
    ensures w' == (if Negative(w.Get(rn)) then w.Set(rd, Negate(w.Get(rd))) else w).(p := w'.p) && w'.p.t == w.p.t
  {
    ComparesZero(rn, w);
    var w1 := Did(DataOf(PlainImm(CMP, 0, rn, 0)), w);
    Does(n + 1, k, w, PlainImm(CMP, 0, rn, 0), w1);
    Negates(rd, w1);
    w' := if w1.p.n then w1.Set(rd, Negate(w1.Get(rd))) else w1;
    DoesIf(n, k + 1, w1, PlainImm(RSB, rd, rd, 0), MINUS, w');
    hide Did, DataOf, Computes, Iterate, Routine;
  }

  lemma Copies(n: nat, k: nat, rd: nat, rm: nat, w: Work)
    requires 1 <= k < LAST && rd < 6 && rm < 6 && Routine(k) == Ins(Register(MOVR, rd, 0, rm), ALWAYS)
    ensures Iterate(n + 1, k, w) == Iterate(n, k + 1, w.Set(rd, w.Get(rm)))
  {
    Moves(rd, rm, w);
    Does(n, k, w, Register(MOVR, rd, 0, rm), w.Set(rd, w.Get(rm)));
    hide Did, DataOf, Computes, Iterate, Routine;
  }

  /** Lines 1 to 10: signs kept, magnitudes taken, and on to the end for a zero divisor. */
  lemma SignsTaken(w: Work) returns (w': Work)
    ensures Iterate(10, 1, w) == Some((if w.r1 == 0 then DONE else ALIGN, w'))
    ensures w' == Work(Magnitude(w.r0), Magnitude(w.r1), Magnitude(w.r1), 0, w.r0, Xor(w.r0, w.r1), w'.p)
            && w'.p.t == w.p.t
  {
    hide Did, DataOf, Computes, Xor, Negate;
    Differs(5, 0, 1, w);
    var w1 := w.Set(5, Xor(w.r0, w.r1));
    Does(9, 1, w, Register(EORR, 5, 0, 1), w1);
    Copies(8, 2, 4, 0, w1);
    var w2 := w1.Set(4, w.r0);
    var w4 := TakesMagnitude(6, 3, 0, 0, w2);
    var w6 := TakesMagnitude(4, 5, 1, 1, w4);
    MovesImmediate(3, w6);
    var w7 := w6.Set(3, 0);
    Does(3, 7, w6, RotImm(MOV, 3, 0, 0), w7);
    Copies(2, 8, 2, 1, w7);
    var w8 := w7.Set(2, w7.r1);
    ComparesZero(2, w8);
    w' := Did(DataOf(PlainImm(CMP, 0, 2, 0)), w8);
    Does(1, 9, w8, PlainImm(CMP, 0, 2, 0), w');
    Branches(0, 10, w', DONE, EQUAL);
    assert (Magnitude(w.r1) == 0) == (w.r1 == 0) by { MagnitudeZero(w.r1); }
    Arrived(if CheckCond(w'.p, EQUAL) then DONE else ALIGN, w');
    hide Iterate, Routine;
  }

  lemma MagnitudeZero(a: Word)
    ensures Magnitude(a) == 0 <==> a == 0
  {
  }

  /** One turn of the alignment, or its end. */
  lemma AlignTurn(w: Work) returns (w': Work)
    requires w.r2 < w.r0 ==> !Negative(w.r2)
    ensures w.r2 >= w.r0 ==> Iterate(2, ALIGN, w) == Some((LOOP, w')) && w' == w.(p := w'.p)
    ensures w.r2 < w.r0 ==> Iterate(4, ALIGN, w) == Some((ALIGN, w')) && w' == w.(r2 := 2 * w.r2, p := w'.p)
    ensures w'.p.t == w.p.t
  {
    hide Did, DataOf;
    Compares(2, 0, w);
    var w1 := Did(DataOf(Register(CMPR, 0, 2, 0)), w);
    if w.r2 >= w.r0 {
      Does(1, ALIGN, w, Register(CMPR, 0, 2, 0), w1);
      Branches(0, 12, w1, LOOP, CARRY);
      w' := w1;
    } else {
      Does(3, ALIGN, w, Register(CMPR, 0, 2, 0), w1);
      Branches(2, 12, w1, LOOP, CARRY);
      Doubles(2, w1);
      w' := Did(DataOf(ShiftConst(LSLSI, 2, 2, 1)), w1);
      Does(1, 13, w1, ShiftConst(LSLSI, 2, 2, 1), w');
      Branches(0, 14, w', ALIGN, CLEAR);
    }
  }

  /** The alignment ends with the divisor shifted to reach the numerator. */
  lemma {:induction false} Aligns(w: Work, k: nat) returns (n: nat, w': Work, k': nat)
    requires w.r0 <= SIGN && 0 < w.r1 <= w.r2 && w.r2 == w.r1 * Pow2(k)
    ensures Iterate(n, ALIGN, w) == Some((LOOP, w')) && w' == w.(r2 := w'.r2, p := w'.p) && w'.p.t == w.p.t
    ensures w'.r2 == w.r1 * Pow2(k') && w.r1 <= w'.r2 && w.r0 <= w'.r2
    decreases w.r0 - w.r2
  {
    var w1 := AlignTurn(w);
    if w.r2 >= w.r0 {
      n, w', k' := 2, w1, k;
    } else {
      DoubleShift(w.r1, k);
      hide Iterate, Pow2;
      var m;
      m, w', k' := Aligns(w1, k + 1);
      IterateAdd(4, m, ALIGN, w);
      n := 4 + m;
    }
  }

  /** Compare, and subtract if it can be done. */
  lemma SubtractIf(n: nat, w: Work) returns (w': Work)
    ensures Iterate(n + 2, LOOP, w) == Iterate(n, 17, w')
    ensures var c := w.r0 >= w.r2;
            w' == w.(r0 := if c then w.r0 - w.r2 else w.r0, p := w'.p) && w'.p.c == c && w'.p.t == w.p.t
  {
    Compares(0, 2, w);
    SubtractComputes();
    hide Did, DataOf, Iterate;
    var w1 := Did(DataOf(Register(CMPR, 0, 0, 2)), w);
    Does(n + 1, LOOP, w, Register(CMPR, 0, 0, 2), w1);
    if w1.p.c { Subtracts(0, 2, w1); }
    w' := if w1.p.c then w1.Set(0, w1.r0 - w1.r2) else w1;
    DoesIf(n, 16, w1, Register(SUBR, 0, 0, 2), CARRY, w');
    hide Computes, Routine;
  }

  /** Compare, subtract if it can be done, shift the quotient bit in. */
  lemma SubtractTurn(n: nat, w: Work) returns (w': Work)
    requires 2 * w.r3 + 1 < BASE
    ensures Iterate(n + 3, LOOP, w) == Iterate(n, 18, w')
    ensures var c := w.r0 >= w.r2;
            w' == w.(r0 := if c then w.r0 - w.r2 else w.r0, r3 := 2 * w.r3 + (if c then 1 else 0), p := w'.p)
            && w'.p.t == w.p.t
  {
    hide Did, DataOf, Iterate;
    var w2 := SubtractIf(n + 1, w);
    DoublesWithCarry(3, w2);
    w' := Did(DataOf(Register(ADCSR, 3, 3, 3)), w2);
    Does(n, 17, w2, Register(ADCSR, 3, 3, 3), w');
    hide Computes, Routine;
  }

  /** One turn of the loop: a quotient bit, and half the divisor while that is not below the original. */
  lemma LoopTurn(w: Work) returns (w': Work)
    requires 2 * w.r3 + 1 < BASE
    ensures Iterate(6, LOOP, w) == Some((if w.r2 / 2 >= w.r1 then LOOP else DONE, w'))
    ensures var c := w.r0 >= w.r2;
            w' == w.(r0 := if c then w.r0 - w.r2 else w.r0, r3 := 2 * w.r3 + (if c then 1 else 0), r2 := w.r2 / 2,
                     p := w'.p)
            && w'.p.t == w.p.t
  {
    hide Did, DataOf;
    var w3 := SubtractTurn(3, w);
    Halves(2, w3);
    var w4 := w3.Set(2, w3.r2 / 2);
    Does(2, 18, w3, ShiftConst(LSRI, 2, 2, 1), w4);
    Compares(2, 1, w4);
    w' := Did(DataOf(Register(CMPR, 0, 2, 1)), w4);
    Does(1, 19, w4, Register(CMPR, 0, 2, 1), w');
    Branches(0, 20, w', LOOP, CARRY);
    Arrived(LOOP, w');
    Arrived(DONE, w');
    hide Iterate, Routine, Computes;
  }

  lemma Arrived(k: nat, w: Work)
    ensures Iterate(0, k, w) == Some((k, w))
  {
  }

  lemma SubtractComputes()
    ensures Computes(Register(SUBR, 0, 0, 2))
  {
  }

  lemma QuotientSmall(num: nat, q: nat, d: nat, r: nat)
    requires num == q * (2 * d) + r && d > 0
    ensures 2 * q <= num
  {
    MulAtLeast(q, 2 * d);
    Distribute(q, q, d);
    MulAtLeast(2 * q, d);
  }

  /** The loop ends with quotient and remainder of the magnitudes. */
  lemma {:induction false} Loops(w: Work, num: Word, k: nat) returns (n: nat, w': Work)
    requires num <= SIGN && 0 < w.r1 <= w.r2 && w.r2 == w.r1 * Pow2(k)
    requires num == w.r3 * (2 * w.r2) + w.r0 && w.r0 < 2 * w.r2
    ensures Iterate(n, LOOP, w) == Some((DONE, w')) && w' == w.(r0 := w'.r0, r2 := w'.r2, r3 := w'.r3, p := w'.p)
    ensures w'.r3 == num / w.r1 && w'.r0 == num % w.r1 && w'.p.t == w.p.t
    decreases k
  {
    assert BASE == 2 * SIGN;
    hide *;
    QuotientSmall(num, w.r3, w.r2, w.r0);
    var w1 := LoopTurn(w);
    SubtractStep(num, w.r3, w.r2, w.r0);
    HalfShift(w.r1, k);
    if w.r2 / 2 < w.r1 {
      UnshiftedIs(w.r1);
      QuotientIs(num, w.r1, w1.r3, w1.r0);
      n, w' := 6, w1;
    } else {
      HalfTwice(w.r1, k, w.r2);
      var m;
      m, w' := Loops(w1, num, k - 1);
      IterateAdd(6, m, LOOP, w);
      n := 6 + m;
    }
  }

  lemma HalfTwice(x: nat, k: nat, v: nat)
    requires x > 0 && v == x * Pow2(k) && v / 2 >= x
    ensures k > 0 && 2 * (v / 2) == v
  {
    HalfShift(x, k);
    if k > 0 { DoubleShift(x, k - 1); }
    hide Pow2;
  }

  lemma RemainderSigned(n: nat, w: Work) returns (w': Work)
    ensures Iterate(n + 4, DONE, w) == Iterate(n, 25, w') && w'.p.t == w.p.t
    ensures w'.r1 == (if Negative(w.r4) then Negate(w.r0) else w.r0) && w'.r0 == w.r3 && w'.r5 == w.r5
  {
    hide Negate, Iterate;
    var w2 := TakesMagnitude(n + 2, 21, 4, 0, w);
    Copies(n + 1, 23, 1, 0, w2);
    var w3 := w2.Set(1, w2.r0);
    Copies(n, 24, 0, 3, w3);
    w' := w3.Set(0, w3.r3);
    hide Routine;
  }

  /** Lines 21 to 29: the signs put back. */
  lemma ResultsSigned(w: Work) returns (w': Work)
    ensures Iterate(9, DONE, w) == Some((LAST, w'))
    ensures w'.p.t == w.p.t
    ensures w'.r1 == (if Negative(w.r4) then Negate(w.r0) else w.r0)
    ensures w'.r0 == (if Negative(w.r5) then Negate(w.r3) else w.r3) && w'.r3 == Magnitude(w'.r0)
  {
    hide Negate, Iterate;
    var w4 := RemainderSigned(5, w);
    var w6 := TakesMagnitude(3, 25, 5, 0, w4);
    Copies(2, 27, 3, 0, w6);
    var w7 := w6.Set(3, w6.r0);
    w' := TakesMagnitude(0, 28, 3, 3, w7);
    Arrived(LAST, w');
    hide Routine;
  }

  /** Between its first and its last line the routine divides. */
  lemma RoutineDivides(w: Work) returns (n: nat, w': Work)
    ensures Iterate(n, 1, w) == Some((LAST, w')) && w'.p.t == w.p.t
    ensures Divides(w.r0, w.r1, w'.r0, w'.r1, w'.r3)
  {
    hide *;
    var w1 := SignsTaken(w);
    var num, den := w.r0, w.r1;
    MagnitudesAre(num);
    MagnitudesAre(den);
    var w2 := w1;
    n := 10;
    if den != 0 {
      var l, w3, k := AlignedFrom(w1);
      var m;
      m, w2 := Loops(w3, w1.r0, k);
      IterateAdd(l, m, ALIGN, w1);
      IterateAdd(10, l + m, 1, w);
      n := 10 + (l + m);
    }
    w' := ResultsSigned(w2);
    IterateAdd(n, 9, 1, w);
    n := n + 9;
    SignedResults(num, den, w2.r3, w2.r0, w'.r0, w'.r1, w'.r3);
  }

  lemma MagnitudesAre(a: Word)
    ensures Magnitude(a) == Abs(TopSigned(a)) <= SIGN && (Magnitude(a) == 0 <==> a == 0)
  {
  }

  lemma AlignedFrom(w: Work) returns (n: nat, w': Work, k: nat)
    requires w.r0 <= SIGN && 0 < w.r1 == w.r2 && w.r3 == 0
    ensures Iterate(n, ALIGN, w) == Some((LOOP, w')) && w' == w.(r2 := w'.r2, p := w'.p) && w'.p.t == w.p.t
    ensures w'.r2 == w.r1 * Pow2(k) && w.r1 <= w'.r2 && w'.r0 < 2 * w'.r2 && w.r0 == w'.r3 * (2 * w'.r2) + w'.r0
  {
    hide *;
    UnshiftedIs(w.r1);
    n, w', k := Aligns(w, 0);
  }

  lemma SignedResults(num: Word, den: Word, q: Word, r: Word, r0: Word, r1: Word, r3: Word)
    requires den == 0 ==> q == 0 && r == Magnitude(num)
    requires den != 0 ==> q == Magnitude(num) / Magnitude(den) && r == Magnitude(num) % Magnitude(den)
    requires r1 == (if Negative(num) then Negate(r) else r)
    requires r0 == (if Negative(Xor(num, den)) then Negate(q) else q) && r3 == Magnitude(r0)
    ensures Divides(num, den, r0, r1, r3)
  {
    LogicalSign((x, y) => x != y, num, den);
    MagnitudesAre(num);
    MagnitudesAre(den);
    hide Logical;
    if den != 0 {
      QuotientBounds(Magnitude(num), Magnitude(den));
      SignsApplied(num, den, q, r);
      hide TopSigned, LowWord, Negate;
    }
  }

  lemma QuotientBounds(a: nat, d: nat)
    requires 0 < d <= SIGN && a <= SIGN
    ensures a / d <= SIGN && a % d < SIGN
  {
    Quotient(a, d);
    MulAtLeast(a / d, d);
  }
}
