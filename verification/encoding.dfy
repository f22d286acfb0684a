/// Instruction words: the encodings the BIOS assembler emits, the CPU's decoder, and
/// that decoding gives back what was encoded (ARM DDI 0100, chapter A3).
module Encoding {
  import opened Options
  import opened Arithmetic
  import opened Alu
  import opened Shifter
  import opened Arm

  type Nibble = n: int | 0 <= n < 16

  type Half = h: int | 0 <= h < 0x1_0000

  /** The condition that always holds. */
  const ALWAYS: Nibble := 14

  /** What the decoder distinguishes.  Types shared with the executed instructions are
      those of the CPU model. */
  datatype Instruction =
    | Bx(rn: nat)
    | Swi
    | Branch(link: bool, words: int)
    | BlockTransfer(block: Block)
    | Swap(byte: bool, rn: nat, rd: nat, rm: nat)
    | Multiply(accumulate: bool, s: bool, rd: nat, rn: nat, rs: nat, rm: nat)
    | MultiplyLong(signed: bool, accumulate: bool, s: bool, hi: nat, lo: nat, rs: nat, rm: nat)
    | HalfTransfer(p: bool, u: bool, w: bool, l: bool, rn: nat, rd: nat, kind: nat, immediate: bool, offset: nat)
    | Mrs(spsr: bool, rd: nat)
    | Msr(spsr: bool, flags: bool, control: bool, immediate: bool, operand: nat)
    | Transfer(p: bool, u: bool, byte: bool, w: bool, l: bool, rn: nat, rd: nat, register: bool, offset: nat)
    | Data(data: DataProcessing)
    | Undefined

  // ------------------------------------------------------------------ fields of a word

  /** Condition, bits 27 to 20, and the five nibbles below. */
  datatype Fields = Fields(cond: Nibble, high: Byte, rn: Nibble, rd: Nibble, rs: Nibble, low: Nibble, rm: Nibble)

  function Join(f: Fields): Word {
    f.cond * 0x1000_0000 + f.high * 0x10_0000 + f.rn * 0x1_0000 + f.rd * 0x1000 + f.rs * 0x100 + f.low * 0x10 + f.rm
  }

  function Split(w: Word): Fields {
    Fields(w / 0x1000_0000, w / 0x10_0000 % 0x100, w / 0x1_0000 % 16, w / 0x1000 % 16, w / 0x100 % 16, w / 0x10 % 16,
           w % 16)
  }

  lemma Digit(hi: int, d: int, lo: int, unit: nat, size: nat)
    requires unit > 0 && size > 0 && 0 <= d < size && 0 <= lo < unit && hi >= 0
    ensures (hi * size + d) * unit + lo >= 0
    ensures ((hi * size + d) * unit + lo) / unit % size == d
  {
    MulNonNegative(hi, size);
    MulNonNegative(hi * size + d, unit);
    QuotientIs((hi * size + d) * unit + lo, unit, hi * size + d, lo);
    QuotientIs(hi * size + d, size, hi, d);
  }

  lemma SplitJoin(f: Fields)
    ensures Split(Join(f)) == f
  {
    var w := Join(f);
    var below20 := f.rn * 0x1_0000 + f.rd * 0x1000 + f.rs * 0x100 + f.low * 0x10 + f.rm;
    QuotientIs(w, 0x1000_0000, f.cond, w - f.cond * 0x1000_0000);
    Digit(f.cond, f.high, below20, 0x10_0000, 0x100);
    Digit(f.cond * 0x100 + f.high, f.rn, below20 - f.rn * 0x1_0000, 0x1_0000, 16);
    Digit((f.cond * 0x100 + f.high) * 16 + f.rn, f.rd, f.rs * 0x100 + f.low * 0x10 + f.rm, 0x1000, 16);
    Digit(((f.cond * 0x100 + f.high) * 16 + f.rn) * 16 + f.rd, f.rs, f.low * 0x10 + f.rm, 0x100, 16);
    Digit((((f.cond * 0x100 + f.high) * 16 + f.rn) * 16 + f.rd) * 16 + f.rs, f.low, f.rm, 0x10, 16);
    QuotientIs(w, 16, (((((f.cond * 0x100 + f.high) * 16 + f.rn) * 16 + f.rd) * 16 + f.rs) * 16 + f.low), f.rm);
  }

  // ------------------------------------------------------------------ the decoder

  predicate Bit24(f: Fields) { f.high / 16 % 2 == 1 }

  predicate Bit23(f: Fields) { f.high / 8 % 2 == 1 }

  predicate Bit22(f: Fields) { f.high / 4 % 2 == 1 }

  predicate Bit21(f: Fields) { f.high / 2 % 2 == 1 }

  predicate Bit20(f: Fields) { f.high % 2 == 1 }

  predicate Bit25(f: Fields) { f.high / 32 % 2 == 1 }

  function Offset12(f: Fields): nat { f.rs * 0x100 + f.low * 0x10 + f.rm }

  /** The low `n` bits, the lowest first. */
  function Bits(v: nat, n: nat): (list: seq<bool>)
    ensures |list| == n
  {
    if n == 0 then [] else [v % 2 == 1] + Bits(v / 2, n - 1)
  }

  function ListBits(v: Half): seq<bool> { Bits(v, 16) }

  /** The sum of one bit per listed register. */
  function ListValue(list: seq<bool>): nat {
    if list == [] then 0 else (if list[0] then 1 else 0) + 2 * ListValue(list[1..])
  }

  lemma {:induction false} ListRoundTrip(list: seq<bool>)
    ensures Bits(ListValue(list), |list|) == list
  {
    if list != [] { ListRoundTrip(list[1..]); }
  }

  /** The 24-bit field as a signed number of words. */
  function SignedOffset(f: Fields): int {
    var v := f.high % 16 * 0x10_0000 + f.rn * 0x1_0000 + f.rd * 0x1000 + Offset12(f);
    if v < 0x80_0000 then v else v - 0x100_0000
  }

  function ShiftOf(f: Fields): Shift {
    var k := f.low / 2 % 4;
    if k == 0 then LSL else if k == 1 then LSR else if k == 2 then ASR else ROR
  }

  function OperandOf(f: Fields): Operand {
    if Bit25(f) then Immediate(f.low * 16 + f.rm, f.rs)
    else if f.low % 2 == 1 then ByRegister(f.rm, ShiftOf(f), f.rs)
    else ByAmount(f.rm, ShiftOf(f), f.rs * 2 + f.low / 8)
  }

  function DecodeFields(f: Fields): Instruction {
    if f.high == 0x12 && f.rn == 15 && f.rd == 15 && f.rs == 15 && f.low == 1 then Bx(f.rm)
    else if f.high / 16 == 0xF then Swi
    else if f.high / 32 == 5 then Branch(Bit24(f), SignedOffset(f))
    else if f.high / 32 == 4 then
      BlockTransfer(Block(Bit24(f), Bit23(f), Bit22(f), Bit21(f), Bit20(f), f.rn,
                          ListBits(f.rd * 0x1000 + Offset12(f))))
    else if (f.high == 0x10 || f.high == 0x14) && f.low == 9 then Swap(Bit22(f), f.rn, f.rd, f.rm)
    else if f.low == 9 && f.high < 4 then Multiply(Bit21(f), Bit20(f), f.rn, f.rd, f.rs, f.rm)
    else if f.low == 9 && f.high / 8 == 1 then MultiplyLong(Bit22(f), Bit21(f), Bit20(f), f.rn, f.rd, f.rs, f.rm)
    else if (f.low == 0xB || f.low == 0xD || f.low == 0xF) && f.high < 32 then
      HalfTransfer(Bit24(f), Bit23(f), Bit21(f), Bit20(f), f.rn, f.rd, f.low / 2 % 4, Bit22(f),
                   if Bit22(f) then f.rs * 16 + f.rm else f.rm)
    else if (f.high == 0x10 || f.high == 0x14) && f.rn == 15 && Offset12(f) == 0 then Mrs(Bit22(f), f.rd)
    else if ((f.high == 0x12 || f.high == 0x16) && f.rd == 15 && f.rs == 0 && f.low == 0)
            || ((f.high == 0x32 || f.high == 0x36) && f.rd == 15)
    then Msr(Bit22(f), f.rn / 8 == 1, f.rn % 2 == 1, Bit25(f), Offset12(f))
    else if f.high / 64 == 1 then
      Transfer(Bit24(f), Bit23(f), Bit22(f), Bit21(f), Bit20(f), f.rn, f.rd, Bit25(f), Offset12(f))
    else if f.high / 64 == 0 then Data(DataProcessing(f.high / 2 % 16, Bit20(f), f.rn, f.rd, OperandOf(f)))
    else Undefined
  }

  function Decode(w: Word): (Nibble, Instruction) { (Split(w).cond, DecodeFields(Split(w))) }

  // ------------------------------------------------------------------ what can be assembled

  /** Mnemonics that look for a rotation of their immediate. */
  datatype Rotated = MOV | ADD | TST | AND | ORR | BIC {
    function Base(): nat {
      match this
      case MOV => 0x03A0_0000 case ADD => 0x0280_0000 case TST => 0x0310_0000
      case AND => 0x0200_0000 case ORR => 0x0380_0000 case BIC => 0x03C0_0000
    }

    function Opcode(): nat {
      match this
      case MOV => 0xD case ADD => 0x4 case TST => 0x8 case AND => 0x0 case ORR => 0xC case BIC => 0xE
    }
  }

  /** Mnemonics that take their immediate as it is. */
  datatype Plain = MVN | SUB | SUBS | RSB | RSBS | CMP {
    function Base(): nat {
      match this
      case MVN => 0x03E0_0000 case SUB => 0x0240_0000 case SUBS => 0x0250_0000
      case RSB => 0x0260_0000 case RSBS => 0x0270_0000 case CMP => 0x0350_0000
    }

    function Opcode(): nat {
      match this
      case MVN => 0xF case SUB => 0x2 case SUBS => 0x2 case RSB => 0x3 case RSBS => 0x3 case CMP => 0xA
    }

    predicate SetsFlags() { SUBS? || RSBS? || CMP? }
  }

  datatype ByReg = MOVR | MOVSR | ADDR | SUBR | SUBSR | CMPR | TSTR | ANDR | ANDSR | ORRR | EORR | BICR | ADCR | ADCSR {
    function Base(): nat {
      match this
      case MOVR => 0x01A0_0000 case MOVSR => 0x01B0_0000 case ADDR => 0x0080_0000 case SUBR => 0x0040_0000
      case SUBSR => 0x0050_0000 case CMPR => 0x0150_0000 case TSTR => 0x0110_0000 case ANDR => 0x0000_0000
      case ANDSR => 0x0010_0000 case ORRR => 0x0180_0000 case EORR => 0x0020_0000 case BICR => 0x01C0_0000
      case ADCR => 0x00A0_0000 case ADCSR => 0x00B0_0000
    }

    function Opcode(): nat {
      match this
      case MOVR => 0xD case MOVSR => 0xD case ADDR => 0x4 case SUBR => 0x2 case SUBSR => 0x2 case CMPR => 0xA
      case TSTR => 0x8 case ANDR => 0x0 case ANDSR => 0x0 case ORRR => 0xC case EORR => 0x1 case BICR => 0xE
      case ADCR => 0x5 case ADCSR => 0x5
    }

    predicate SetsFlags() { MOVSR? || SUBSR? || CMPR? || TSTR? || ANDSR? || ADCSR? }
  }

  /** Moves of a register shifted by a constant. */
  datatype ByConst = LSLI | LSLSI | LSRI | LSRSI | ASRI {
    function Base(): nat {
      match this
      case LSLI => 0x01A0_0000 case LSLSI => 0x01B0_0000 case LSRI => 0x01A0_0020 case LSRSI => 0x01B0_0020
      case ASRI => 0x01A0_0040
    }

    function Kind(): Shift {
      match this
      case LSLI => LSL case LSLSI => LSL case LSRI => LSR case LSRSI => LSR case ASRI => ASR
    }

    predicate SetsFlags() { LSLSI? || LSRSI? }
  }

  /** Single transfers of a word or a byte, pre-indexed or post-indexed. */
  datatype Access = LDRP | STRP | LDRBP | STRBP | LDRI | STRI | STRBI | LDRBI {
    function Base(): nat {
      match this
      case LDRP => 0x0410_0000 case STRP => 0x0400_0000 case LDRBP => 0x0450_0000 case STRBP => 0x0440_0000
      case LDRI => 0x0510_0000 case STRI => 0x0500_0000 case STRBI => 0x0540_0000 case LDRBI => 0x0550_0000
    }

    predicate Loads() { LDRP? || LDRBP? || LDRI? || LDRBI? }

    predicate Bytes() { LDRBP? || STRBP? || STRBI? || LDRBI? }

    predicate Before() { LDRI? || STRI? || STRBI? || LDRBI? }
  }

  datatype HalfAccess = STRHP | LDRHI | STRHI | LDRSHI {
    function Base(): nat {
      match this
      case STRHP => 0x0040_00B0 case LDRHI => 0x0150_00B0 case STRHI => 0x0140_00B0 case LDRSHI => 0x0150_00F0
    }
  }

  datatype Blocks = LDMIA(writeback: bool) | STMIA(writeback: bool) | STMFD | LDMFD {
    function Base(): nat {
      match this
      case LDMIA(w) => 0x0890_0000 + if w then 0x20_0000 else 0
      case STMIA(w) => 0x0880_0000 + if w then 0x20_0000 else 0
      case STMFD => 0x0920_0000
      case LDMFD => 0x08B0_0000
    }

    /** A full descending stack is pushed downwards before, popped upwards after. */
    function Meaning(rn: nat, list: seq<bool>): Block {
      match this
      case LDMIA(w) => Block(false, true, false, w, true, rn, list)
      case STMIA(w) => Block(false, true, false, w, false, rn, list)
      case STMFD => Block(true, false, false, true, false, rn, list)
      case LDMFD => Block(false, true, false, true, true, rn, list)
    }
  }

  datatype Op =
    | RotImm(rk: Rotated, rd: Nibble, rn: Nibble, imm: Word)
    | PlainImm(pk: Plain, rd: Nibble, rn: Nibble, value: Byte)
    | Register(gk: ByReg, rd: Nibble, rn: Nibble, rm: Nibble)
    | ShiftConst(ck: ByConst, rd: Nibble, rm: Nibble, sh: nat)
    | LslReg(rd: Nibble, rm: Nibble, rs: Nibble)
    | LsrReg(rd: Nibble, rm: Nibble, rs: Nibble)
    | OrrRegLsl(rd: Nibble, rn: Nibble, rm: Nibble, rs: Nibble)
    | Mul(rd: Nibble, rm: Nibble, rs: Nibble)
    | Smull(lo: Nibble, hi: Nibble, rm: Nibble, rs: Nibble)
    | Single(ak: Access, rd: Nibble, rn: Nibble, off: int)
    | Halfword(hk: HalfAccess, rd: Nibble, rn: Nibble, off: int)
    | Multiple(bk: Blocks, rn: Nibble, list: Half)
    | MrsSpsr(rd: Nibble)
    | MsrCpsrC(rm: Nibble)
    | MsrSpsrCf(rm: Nibble)

  // ------------------------------------------------------------------ rotated immediates

  /** The immediate rotated left by `2 * rot`, which is right by the rest of the word. */
  function Unrotated(imm: Word, rot: nat): Word
    requires rot < 16
  {
    RotateRight(imm, 32 - 2 * rot)
  }

  /** The first rotation from `rot` on that leaves eight bits. */
  function FirstRotation(imm: Word, rot: nat): Option<nat>
    decreases 16 - rot
  {
    if rot >= 16 then None
    else if Unrotated(imm, rot) < 256 then Some(rot)
    else FirstRotation(imm, rot + 1)
  }

  method FindRotation(imm: Word) returns (r: Option<nat>)
    ensures r == FirstRotation(imm, 0)
  {
    for rot := 0 to 16
      invariant FirstRotation(imm, rot) == FirstRotation(imm, 0)
    {
      if Unrotated(imm, rot) < 256 {
        return Some(rot);
      }
    }
    r := None;
  }

  /** A word rotated by `n`, written with its two parts. */
  lemma RotateParts(a: nat, b: nat, n: nat, p: nat, q: nat)
    requires n <= 32 && p == Pow2(n) && q == Pow2(32 - n) && a < p && b < q
    ensures 0 <= b * p + a < BASE && RotateRight(b * p + a, n) == a * q + b
  {
    hide Pow2;
    Pow2Known();
    Pow2Add(n, 32 - n);
    PartsFit(a, b, p, q);
    PartsFit(b, a, q, p);
    QuotientIs(b * p + a, p, b, a);
  }

  lemma PartsFit(a: nat, b: nat, p: nat, q: nat)
    requires p * q == BASE && a < p && b < q
    ensures 0 <= b * p + a < BASE
  {
    MulNonNegative(b, p);
    MulMonotone(b, q - 1, p);
    Distribute(q, 1, p);
  }

  /** Rotating by `n` and then by the rest of the word is rotating by none. */
  lemma RotateAround(v: Word, n: nat)
    requires n <= 32
    ensures RotateRight(RotateRight(v, n), 32 - n) == v
  {
    RotateAroundParts(v, n, Pow2(n), Pow2(32 - n));
  }

  lemma RotateAroundParts(v: Word, n: nat, p: nat, q: nat)
    requires n <= 32 && p == Pow2(n) == Pow2(32 - (32 - n)) && q == Pow2(32 - n)
    ensures RotateRight(RotateRight(v, n), 32 - n) == v
  {
    hide RotateRight, Pow2;
    Pow2Known();
    Pow2Add(n, 32 - n);
    Quotient(v, p);
    BelowQuotient(v, p, q);
    RotateParts(v % p, v / p, n, p, q);
    RotateParts(v / p, v % p, 32 - n, q, p);
  }

  lemma BelowQuotient(v: nat, d: nat, k: nat)
    requires d > 0 && v < k * d
    ensures v / d < k
  {
    Quotient(v, d);
    if v / d >= k { MulMonotone(k, v / d, d); }
  }

  /** A rotation is found exactly when some even rotation of a byte gives the immediate. */
  lemma {:induction false} RotationFound(imm: Word, rot: nat)
    requires rot <= 16
    ensures FirstRotation(imm, rot).None? <==>
            forall r: nat, b: Byte :: rot <= r < 16 ==> RotateRight(b, 2 * r) != imm
    ensures FirstRotation(imm, rot).Some? ==>
            var r := FirstRotation(imm, rot).value;
            rot <= r < 16 && Unrotated(imm, r) < 256 && RotateRight(Unrotated(imm, r), 2 * r) == imm
    decreases 16 - rot
  {
    if rot < 16 {
      RotationFound(imm, rot + 1);
      RotateAround(imm, 32 - 2 * rot);
      hide RotateRight;
      forall b: Byte | RotateRight(b, 2 * rot) == imm
        ensures Unrotated(imm, rot) < 256
      {
        RotateAround(b, 2 * rot);
      }
      if Unrotated(imm, rot) < 256 {
        var b: Byte := Unrotated(imm, rot);
        assert RotateRight(b, 2 * rot) == imm;
      }
    }
  }

  // ------------------------------------------------------------------ the encoders

  /** Registers and low bits below a condition and a pattern they do not overlap. */
  function Word4(cond: Nibble, base: nat, rn: Nibble, rd: Nibble, low: nat): nat {
    cond * 0x1000_0000 + base + rn * 0x1_0000 + rd * 0x1000 + low
  }

  /** The U bit, for an offset that is not negative. */
  function Up(off: int): nat { if off >= 0 then 0x80_0000 else 0 }

  /** What the encoder accepts, and the fields it does not check. */
  predicate InRange(op: Op) {
    match op
    case ShiftConst(k, _, _, sh) => if k.LSLI? || k.LSLSI? then sh < 32 else 1 <= sh <= 32
    case Mul(rd, rm, _) => rd != rm
    case Single(_, _, _, off) => Abs(off) < 0x1000
    case Halfword(_, _, _, off) => Abs(off) < 0x100
    case _ => true
  }

  /** The word for an instruction; none if no rotation fits the immediate. */
  function Encode(op: Op, cond: Nibble): Option<nat>
    requires InRange(op)
  {
    match op
    case RotImm(k, rd, rn, imm) =>
      (match FirstRotation(imm, 0)
       case None => None
       case Some(rot) =>
         RotationFound(imm, 0);
         Some(Word4(cond, k.Base(), if k.MOV? then 0 else rn, if k.TST? then 0 else rd,
                    rot * 0x100 + Unrotated(imm, rot))))
    case PlainImm(k, rd, rn, value) =>
      Some(Word4(cond, k.Base(), if k.MVN? then 0 else rn, if k.CMP? then 0 else rd, value))
    case Register(k, rd, rn, rm) =>
      Some(Word4(cond, k.Base(), if k.MOVR? || k.MOVSR? then 0 else rn, if k.CMPR? || k.TSTR? then 0 else rd, rm))
    case ShiftConst(k, rd, rm, sh) => Some(Word4(cond, k.Base(), 0, rd, sh % 32 * 0x80 + rm))
    case LslReg(rd, rm, rs) => Some(Word4(cond, 0x01A0_0010, 0, rd, rs * 0x100 + rm))
    case LsrReg(rd, rm, rs) => Some(Word4(cond, 0x01A0_0030, 0, rd, rs * 0x100 + rm))
    case OrrRegLsl(rd, rn, rm, rs) => Some(Word4(cond, 0x0180_0010, rn, rd, rs * 0x100 + rm))
    case Mul(rd, rm, rs) => Some(Word4(cond, 0x90, rd, 0, rs * 0x100 + rm))
    case Smull(lo, hi, rm, rs) => Some(Word4(cond, 0x00C0_0090, hi, lo, rs * 0x100 + rm))
    case Single(k, rd, rn, off) => Some(Word4(cond, k.Base() + Up(off), rn, rd, Abs(off)))
    case Halfword(k, rd, rn, off) =>
      Some(Word4(cond, k.Base() + Up(off), rn, rd, Abs(off) / 16 * 0x100 + Abs(off) % 16))
    case Multiple(k, rn, list) => Some(Word4(cond, k.Base(), rn, 0, list))
    case MrsSpsr(rd) => Some(Word4(cond, 0x014F_0000, 0, rd, 0))
    case MsrCpsrC(rm) => Some(Word4(cond, 0x0121_F000, 0, 0, rm))
    case MsrSpsrCf(rm) => Some(Word4(cond, 0x0169_F000, 0, 0, rm))
  }

  /** What the mnemonic stands for. */
  function Meaning(op: Op): Instruction
    requires InRange(op)
  {
    match op
    case RotImm(k, rd, rn, imm) =>
      var rot := FirstRotation(imm, 0);
      if rot.None? then Undefined
      else
        RotationFound(imm, 0);
        Data(DataProcessing(k.Opcode(), k.TST?, if k.MOV? then 0 else rn, if k.TST? then 0 else rd,
                            Immediate(Unrotated(imm, rot.value), rot.value)))
    case PlainImm(k, rd, rn, value) =>
      Data(DataProcessing(k.Opcode(), k.SetsFlags(), if k.MVN? then 0 else rn, if k.CMP? then 0 else rd,
                          Immediate(value, 0)))
    case Register(k, rd, rn, rm) =>
      Data(DataProcessing(k.Opcode(), k.SetsFlags(), if k.MOVR? || k.MOVSR? then 0 else rn, 
                          if k.CMPR? || k.TSTR? then 0 else rd,
                          ByAmount(rm, LSL, 0)))
    case ShiftConst(k, rd, rm, sh) => Data(DataProcessing(0xD, k.SetsFlags(), 0, rd, ByAmount(rm, k.Kind(), sh % 32)))
    case LslReg(rd, rm, rs) => Data(DataProcessing(0xD, false, 0, rd, ByRegister(rm, LSL, rs)))
    case LsrReg(rd, rm, rs) => Data(DataProcessing(0xD, false, 0, rd, ByRegister(rm, LSR, rs)))
    case OrrRegLsl(rd, rn, rm, rs) => Data(DataProcessing(0xC, false, rn, rd, ByRegister(rm, LSL, rs)))
    case Mul(rd, rm, rs) => Multiply(false, false, rd, 0, rs, rm)
    case Smull(lo, hi, rm, rs) => MultiplyLong(true, false, false, hi, lo, rs, rm)
    case Single(k, rd, rn, off) =>
      Transfer(k.Before(), off >= 0, k.Bytes(), false, k.Loads(), rn, rd, false, Abs(off))
    case Halfword(k, rd, rn, off) =>
      HalfTransfer(!k.STRHP?, off >= 0, false, k.LDRHI? || k.LDRSHI?, rn, rd, if k.LDRSHI? then 3 else 1, true,
                   Abs(off))
    case Multiple(k, rn, list) => BlockTransfer(k.Meaning(rn, ListBits(list)))
    case MrsSpsr(rd) => Mrs(true, rd)
    case MsrCpsrC(rm) => Msr(false, false, true, false, rm)
    case MsrSpsrCf(rm) => Msr(true, true, true, false, rm)
  }

  // ------------------------------------------------------------------ decoding undoes encoding

  /** The fields of an assembled word. */
  lemma Assembled(cond: Nibble, base: nat, high: Byte, low: nat, rn: Nibble, rd: Nibble, f: Fields)
    requires base + low == high * 0x10_0000 + f.rs * 0x100 + f.low * 0x10 + f.rm
    requires f.cond == cond && f.high == high && f.rn == rn && f.rd == rd
    ensures 0 <= Word4(cond, base, rn, rd, low) < BASE
    ensures Decode(Word4(cond, base, rn, rd, low)) == (cond, DecodeFields(f))
  {
    SplitJoin(f);
    hide Split, DecodeFields;
  }

  /** Opcodes 8 to 11 without the S bit are the status register instructions. */
  predicate Status(high: Byte) { high == 0x10 || high == 0x12 || high == 0x14 || high == 0x16 || high == 0x32
                                || high == 0x36 }

  lemma ImmediateFields(f: Fields)
    requires 32 <= f.high < 64 && !Status(f.high)
    ensures DecodeFields(f)
         == Data(DataProcessing(f.high / 2 % 16, f.high % 2 == 1, f.rn, f.rd, Immediate(f.low * 16 + f.rm, f.rs)))
  {
  }

  lemma RegisterFields(f: Fields)
    requires f.high < 32 && !Status(f.high) && (f.low % 2 == 0 || f.low < 8)
    ensures DecodeFields(f) ==
            Data(DataProcessing(f.high / 2 % 16, f.high % 2 == 1, f.rn, f.rd,
                                if f.low % 2 == 1 then ByRegister(f.rm, ShiftOf(f), f.rs)
                                else ByAmount(f.rm, ShiftOf(f), f.rs * 2 + f.low / 8)))
  {
  }

  lemma RotImmDecodes(k: Rotated, cond: Nibble, rd: Nibble, rn: Nibble, rot: Nibble, byte: Byte)
    ensures 0 <= Word4(cond, k.Base(), rn, rd, rot * 0x100 + byte) < BASE
    ensures Decode(Word4(cond, k.Base(), rn, rd, rot * 0x100 + byte))
         == (cond, Data(DataProcessing(k.Opcode(), k == TST, rn, rd, Immediate(byte, rot))))
  {
    hide Decode, DecodeFields, Word4;
    var f := Fields(cond, k.Base() / 0x10_0000, rn, rd, rot, byte / 16, byte % 16);
    Assembled(cond, k.Base(), f.high, rot * 0x100 + byte, rn, rd, f);
    ImmediateFields(f);
  }

  lemma PlainImmDecodes(k: Plain, cond: Nibble, rd: Nibble, rn: Nibble, value: Byte)
    ensures 0 <= Word4(cond, k.Base(), rn, rd, value) < BASE
    ensures Decode(Word4(cond, k.Base(), rn, rd, value))
         == (cond, Data(DataProcessing(k.Opcode(), k.SetsFlags(), rn, rd, Immediate(value, 0))))
  {
    hide Decode, DecodeFields, Word4;
    var f := Fields(cond, k.Base() / 0x10_0000, rn, rd, 0, value / 16, value % 16);
    Assembled(cond, k.Base(), f.high, value, rn, rd, f);
    ImmediateFields(f);
  }

  lemma RegisterDecodes(k: ByReg, cond: Nibble, rd: Nibble, rn: Nibble, rm: Nibble)
    ensures 0 <= Word4(cond, k.Base(), rn, rd, rm) < BASE
    ensures Decode(Word4(cond, k.Base(), rn, rd, rm))
         == (cond, Data(DataProcessing(k.Opcode(), k.SetsFlags(), rn, rd, ByAmount(rm, LSL, 0))))
  {
    hide Decode, DecodeFields, Word4;
    var f := Fields(cond, k.Base() / 0x10_0000, rn, rd, 0, 0, rm);
    Assembled(cond, k.Base(), f.high, rm, rn, rd, f);
    RegisterFields(f);
  }

  lemma ShiftConstDecodes(k: ByConst, cond: Nibble, rd: Nibble, rm: Nibble, sh: nat)
    requires sh < 32
    ensures 0 <= Word4(cond, k.Base(), 0, rd, sh * 0x80 + rm) < BASE
    ensures Decode(Word4(cond, k.Base(), 0, rd, sh * 0x80 + rm))
         == (cond, Data(DataProcessing(0xD, k.SetsFlags(), 0, rd, ByAmount(rm, k.Kind(), sh))))
  {
    hide Decode, DecodeFields, Word4;
    var high: Byte := if k.SetsFlags() then 0x1B else 0x1A;
    var f := Fields(cond, high, 0, rd, sh / 2, sh % 2 * 8 + k.Base() % 0x10_0000 / 16, rm);
    Assembled(cond, k.Base(), f.high, sh * 0x80 + rm, 0, rd, f);
    RegisterFields(f);
  }

  lemma ShiftRegDecodes(base: nat, high: Byte, low: Nibble, cond: Nibble, rn: Nibble, rd: Nibble, rs: Nibble,
                        rm: Nibble)
    requires high < 32 && !Status(high) && low % 2 == 1 && low < 8 && base == high * 0x10_0000 + low * 0x10
    ensures 0 <= Word4(cond, base, rn, rd, rs * 0x100 + rm) < BASE
    ensures Decode(Word4(cond, base, rn, rd, rs * 0x100 + rm)) ==
            (cond, Data(DataProcessing(high / 2 % 16, high % 2 == 1, rn, rd,
                                       ByRegister(rm, ShiftOf(Fields(cond, high, rn, rd, rs, low, rm)), rs))))
  {
    hide Decode, DecodeFields, Word4;
    var f := Fields(cond, high, rn, rd, rs, low, rm);
    Assembled(cond, base, high, rs * 0x100 + rm, rn, rd, f);
    RegisterFields(f);
  }

  lemma MultiplyDecodes(high: Byte, cond: Nibble, rn: Nibble, rd: Nibble, rs: Nibble, rm: Nibble)
    requires high == 0x00 || high == 0x0C
    ensures 0 <= Word4(cond, high * 0x10_0000 + 0x90, rn, rd, rs * 0x100 + rm) < BASE
    ensures Decode(Word4(cond, high * 0x10_0000 + 0x90, rn, rd, rs * 0x100 + rm)) ==
            (cond, if high == 0 then Multiply(false, false, rn, rd, rs, rm)
                   else MultiplyLong(true, false, false, rn, rd, rs, rm))
  {
    hide Decode, Word4;
    var f := Fields(cond, high, rn, rd, rs, 9, rm);
    Assembled(cond, high * 0x10_0000 + 0x90, high, rs * 0x100 + rm, rn, rd, f);
  }

  lemma SingleFields(f: Fields)
    requires f.high / 64 == 1
    ensures DecodeFields(f) ==
            Transfer(Bit24(f), Bit23(f), Bit22(f), Bit21(f), Bit20(f), f.rn, f.rd, Bit25(f), Offset12(f))
  {
    hide SignedOffset, ListBits, OperandOf;
  }

  /** Bits 27 to 20 of a single transfer. */
  function SingleHigh(k: Access, off: int): Byte { k.Base() / 0x10_0000 + if off >= 0 then 8 else 0 }

  lemma SingleBits(k: Access, off: int)
    ensures var h := SingleHigh(k, off);
            && k.Base() + Up(off) == h * 0x10_0000 && h / 64 == 1 && h / 32 % 2 == 0
            && (h / 16 % 2 == 1 <==> k.Before()) && (h / 8 % 2 == 1 <==> off >= 0) && (h / 4 % 2 == 1 <==> k.Bytes())
            && h / 2 % 2 == 0 && (h % 2 == 1 <==> k.Loads())
  {
  }

  lemma SingleDecodes(k: Access, cond: Nibble, rd: Nibble, rn: Nibble, off: int)
    requires Abs(off) < 0x1000
    ensures 0 <= Word4(cond, k.Base() + Up(off), rn, rd, Abs(off)) < BASE
    ensures Decode(Word4(cond, k.Base() + Up(off), rn, rd, Abs(off)))
         == (cond, Transfer(k.Before(), off >= 0, k.Bytes(), false, k.Loads(), rn, rd, false, Abs(off)))
  {
    hide Decode, DecodeFields, Word4, Abs, Up, SingleHigh, Access.Base, Access.Before, Access.Bytes, Access.Loads;
    var a := Abs(off);
    var f := Fields(cond, SingleHigh(k, off), rn, rd, a / 0x100, a / 0x10 % 16, a % 16);
    Nibbles(a);
    SingleBits(k, off);
    Assembled(cond, k.Base() + Up(off), f.high, a, rn, rd, f);
    SingleFields(f);
  }

  lemma Nibbles(a: nat)
    requires a < 0x1000
    ensures a == a / 0x100 * 0x100 + a / 0x10 % 16 * 0x10 + a % 16 && a / 0x100 < 16
  {
  }

  lemma HalfFields(f: Fields)
    requires f.high < 32 && Bit22(f) && (f.low == 0xB || f.low == 0xF)
    ensures DecodeFields(f) ==
            HalfTransfer(Bit24(f), Bit23(f), Bit21(f), Bit20(f), f.rn, f.rd, f.low / 2 % 4, true, f.rs * 16 + f.rm)
  {
    hide SignedOffset, ListBits, OperandOf;
  }

  function HalfHigh(k: HalfAccess, off: int): Byte { k.Base() / 0x10_0000 + if off >= 0 then 8 else 0 }

  function HalfLow(k: HalfAccess): Nibble { if k.LDRSHI? then 0xF else 0xB }

  lemma HalfBits(k: HalfAccess, off: int)
    ensures var h := HalfHigh(k, off);
            && k.Base() + Up(off) == h * 0x10_0000 + HalfLow(k) * 16 && h < 32 && h / 4 % 2 == 1
            && (h / 16 % 2 == 1 <==> !k.STRHP?) && (h / 8 % 2 == 1 <==> off >= 0) && h / 2 % 2 == 0
            && (h % 2 == 1 <==> k.LDRHI? || k.LDRSHI?)
  {
  }

  lemma HalfwordDecodes(k: HalfAccess, cond: Nibble, rd: Nibble, rn: Nibble, off: int)
    requires Abs(off) < 0x100
    ensures 0 <= Word4(cond, k.Base() + Up(off), rn, rd, Abs(off) / 16 * 0x100 + Abs(off) % 16) < BASE
    ensures Decode(Word4(cond, k.Base() + Up(off), rn, rd, Abs(off) / 16 * 0x100 + Abs(off) % 16)) ==
            (cond, HalfTransfer(!k.STRHP?, off >= 0, false, k.LDRHI? || k.LDRSHI?, rn, rd,
                                if k.LDRSHI? then 3 else 1, true, Abs(off)))
  {
    hide Decode, DecodeFields, Word4, Abs, Up, HalfHigh, HalfAccess.Base;
    var a := Abs(off);
    var f := Fields(cond, HalfHigh(k, off), rn, rd, a / 16, HalfLow(k), a % 16);
    HalfBits(k, off);
    Assembled(cond, k.Base() + Up(off), f.high, a / 16 * 0x100 + a % 16, rn, rd, f);
    HalfFields(f);
  }

  lemma BlockFields(f: Fields)
    requires f.high / 32 == 4
    ensures DecodeFields(f) ==
            BlockTransfer(Block(Bit24(f), Bit23(f), Bit22(f), Bit21(f), Bit20(f), f.rn,
                                ListBits(f.rd * 0x1000 + Offset12(f))))
  {
    hide ListBits;
  }

  lemma MultipleDecodes(k: Blocks, cond: Nibble, rn: Nibble, list: Half)
    ensures 0 <= Word4(cond, k.Base(), rn, 0, list) < BASE
    ensures Decode(Word4(cond, k.Base(), rn, 0, list)) == (cond, BlockTransfer(k.Meaning(rn, ListBits(list))))
  {
    hide Decode, DecodeFields, Word4, ListBits;
    var rd: Nibble, low := list / 0x1000, list % 0x1000;
    var f := Fields(cond, k.Base() / 0x10_0000, rn, rd, low / 0x100, low / 0x10 % 16, low % 16);
    Nibbles(low);
    Assembled(cond, k.Base(), f.high, low, rn, rd, f);
    BlockFields(f);
    assert Word4(cond, k.Base(), rn, 0, list) == Word4(cond, k.Base(), rn, rd, low) by {
      Regroup(cond, k.Base(), rn, list);
    }
  }

  lemma Regroup(cond: Nibble, base: nat, rn: Nibble, list: Half)
    ensures Word4(cond, base, rn, 0, list) == Word4(cond, base, rn, list / 0x1000, list % 0x1000)
  {
    Quotient(list, 0x1000);
  }

  predicate Faithful(op: Op, cond: Nibble)
    requires InRange(op)
  {
    var w := Encode(op, cond);
    w.Some? ==> 0 <= w.value < BASE && Decode(w.value) == (cond, Meaning(op))
  }

  lemma DataDecodes(op: Op, cond: Nibble)
    requires InRange(op) && (op.RotImm? || op.PlainImm? || op.Register? || op.ShiftConst?)
    ensures Faithful(op, cond)
  {
    hide Decode, Word4, FirstRotation, Unrotated;
    match op
    case RotImm(k, rd, rn, imm) =>
      RotationFound(imm, 0);
      var rot := FirstRotation(imm, 0);
      if rot.Some? {
        RotImmDecodes(k, cond, if k.TST? then 0 else rd, if k.MOV? then 0 else rn, rot.value,
                      Unrotated(imm, rot.value));
      }
    case PlainImm(k, rd, rn, value) =>
      PlainImmDecodes(k, cond, if k.CMP? then 0 else rd, if k.MVN? then 0 else rn, value);
    case Register(k, rd, rn, rm) =>
      RegisterDecodes(k, cond, if k.CMPR? || k.TSTR? then 0 else rd, if k.MOVR? || k.MOVSR? then 0 else rn, rm);
    case ShiftConst(k, rd, rm, sh) =>
      ShiftConstDecodes(k, cond, rd, rm, sh % 32);
  }

  lemma ShiftMultiplyDecodes(op: Op, cond: Nibble)
    requires InRange(op) && (op.LslReg? || op.LsrReg? || op.OrrRegLsl? || op.Mul? || op.Smull?)
    ensures Faithful(op, cond)
  {
    hide Decode, Word4;
    match op
    case LslReg(rd, rm, rs) => ShiftRegDecodes(0x01A0_0010, 0x1A, 1, cond, 0, rd, rs, rm);
    case LsrReg(rd, rm, rs) => ShiftRegDecodes(0x01A0_0030, 0x1A, 3, cond, 0, rd, rs, rm);
    case OrrRegLsl(rd, rn, rm, rs) => ShiftRegDecodes(0x0180_0010, 0x18, 1, cond, rn, rd, rs, rm);
    case Mul(rd, rm, rs) => MultiplyDecodes(0, cond, rd, 0, rs, rm);
    case Smull(lo, hi, rm, rs) => MultiplyDecodes(0x0C, cond, hi, lo, rs, rm);
  }

  lemma MemoryDecodes(op: Op, cond: Nibble)
    requires InRange(op) && (op.Single? || op.Halfword? || op.Multiple?)
    ensures Faithful(op, cond)
  {
    hide Decode, Word4, ListBits;
    match op
    case Single(k, rd, rn, off) => SingleDecodes(k, cond, rd, rn, off);
    case Halfword(k, rd, rn, off) => HalfwordDecodes(k, cond, rd, rn, off);
    case Multiple(k, rn, list) => MultipleDecodes(k, cond, rn, list);
  }

  lemma MrsFields(cond: Nibble, rd: Nibble)
    ensures DecodeFields(Fields(cond, 0x14, 15, rd, 0, 0, 0)) == Mrs(true, rd)
  {
    var f := Fields(cond, 0x14, 15, rd, 0, 0, 0);
    assert f.high / 16 == 1 && f.high / 32 == 0 && Bit22(f) && Offset12(f) == 0;
    hide Bit20, Bit21, Bit22, Bit23, Bit24, Bit25, Offset12, SignedOffset, ListBits, OperandOf;
  }

  lemma MsrCpsrFields(cond: Nibble, rm: Nibble)
    ensures DecodeFields(Fields(cond, 0x12, 1, 15, 0, 0, rm)) == Msr(false, false, true, false, rm)
  {
    var f := Fields(cond, 0x12, 1, 15, 0, 0, rm);
    assert f.high / 16 == 1 && f.high / 32 == 0 && !Bit22(f) && Offset12(f) == rm && !Bit25(f) && f.rn / 8 == 0
            && f.rn % 2 == 1;
    hide Bit20, Bit21, Bit22, Bit23, Bit24, Bit25, Offset12, SignedOffset, ListBits, OperandOf;
  }

  lemma MsrSpsrFields(cond: Nibble, rm: Nibble)
    ensures DecodeFields(Fields(cond, 0x16, 9, 15, 0, 0, rm)) == Msr(true, true, true, false, rm)
  {
    var f := Fields(cond, 0x16, 9, 15, 0, 0, rm);
    assert f.high / 16 == 1 && f.high / 32 == 0 && Bit22(f) && Offset12(f) == rm && !Bit25(f) && f.rn / 8 == 1
            && f.rn % 2 == 1;
    hide Bit20, Bit21, Bit22, Bit23, Bit24, Bit25, Offset12, SignedOffset, ListBits, OperandOf;
  }

  /** A pattern that holds some of the register fields itself. */
  lemma Folded(cond: Nibble, high: Byte, rn: Nibble, rd: Nibble, rm: Nibble)
    ensures Word4(cond, high * 0x10_0000 + rn * 0x1_0000, 0, rd, rm) == Word4(cond, high * 0x10_0000, rn, rd, rm)
    ensures Word4(cond, high * 0x10_0000 + rn * 0x1_0000 + rd * 0x1000, 0, 0, rm)
            == Word4(cond, high * 0x10_0000, rn, rd, rm)
  {
  }

  lemma StatusDecodes(op: Op, cond: Nibble)
    requires op.MrsSpsr? || op.MsrCpsrC? || op.MsrSpsrCf?
    ensures Faithful(op, cond)
  {
    hide Decode, DecodeFields, Word4;
    match op
    case MrsSpsr(rd) =>
      Folded(cond, 0x14, 15, rd, 0);
      Assembled(cond, 0x0140_0000, 0x14, 0, 15, rd, Fields(cond, 0x14, 15, rd, 0, 0, 0));
      MrsFields(cond, rd);
    case MsrCpsrC(rm) =>
      Folded(cond, 0x12, 1, 15, rm);
      Assembled(cond, 0x0120_0000, 0x12, rm, 1, 15, Fields(cond, 0x12, 1, 15, 0, 0, rm));
      MsrCpsrFields(cond, rm);
    case MsrSpsrCf(rm) =>
      Folded(cond, 0x16, 9, 15, rm);
      Assembled(cond, 0x0160_0000, 0x16, rm, 9, 15, Fields(cond, 0x16, 9, 15, 0, 0, rm));
      MsrSpsrFields(cond, rm);
  }

  /** For every operand in range and every condition: the decoder sees the condition and the
      instruction that was asked for. */
  lemma DecodesAll(op: Op, cond: Nibble)
    requires InRange(op)
    ensures Encode(op, cond).None? <==>
            op.RotImm? && forall r: nat, b: Byte :: r < 16 ==> RotateRight(b, 2 * r) != op.imm
    ensures Encode(op, cond).Some? ==>
            0 <= Encode(op, cond).value < BASE && Decode(Encode(op, cond).value) == (cond, Meaning(op))
  {
    if op.RotImm? { RotationFound(op.imm, 0); }
    hide Decode, Meaning, Word4, FirstRotation, Unrotated, RotateRight;
    if op.RotImm? || op.PlainImm? || op.Register? || op.ShiftConst? {
      DataDecodes(op, cond);
    } else if op.Single? || op.Halfword? || op.Multiple? {
      MemoryDecodes(op, cond);
    } else if op.MrsSpsr? || op.MsrCpsrC? || op.MsrSpsrCf? {
      StatusDecodes(op, cond);
    } else {
      ShiftMultiplyDecodes(op, cond);
    }
  }

  /** An immediate operand that the shifter turns into `imm`. */
  predicate HasValue(i: Instruction, imm: Word) {
    && i.Data? && i.data.op2.Immediate? && i.data.op2.rotate < 16 && i.data.op2.imm < 256
    && RotateRight(i.data.op2.imm, 2 * i.data.op2.rotate) == imm
  }

  lemma ImmediateValue(op: Op)
    requires op.RotImm? && FirstRotation(op.imm, 0).Some?
    ensures HasValue(Meaning(op), op.imm)
  {
    hide RotateRight, FirstRotation, Unrotated;
    RotationFound(op.imm, 0);
    assert Unrotated(op.imm, FirstRotation(op.imm, 0).value) < 256;
  }

  // ------------------------------------------------------------------ unchecked immediates

  /** The word a mnemonic that does not check its immediate makes of any number: the number
      is laid over registers and pattern bit by bit, and only a result that is no word is
      an error. */
  function UncheckedWord(k: Plain, cond: Nibble, rd: Nibble, rn: Nibble, imm: int): Option<Word> {
    if 0 <= imm < BASE then Some(Or(PlainHead(k, cond, rd, rn), imm)) else None
  }

  function PlainHead(k: Plain, cond: Nibble, rd: Nibble, rn: Nibble): Word {
    LowWord(Word4(cond, k.Base(), if k.MVN? then 0 else rn, if k.CMP? then 0 else rd, 0))
  }

  /** The decoder sees condition, mnemonic and registers, and an operand of value `imm`. */
  predicate Reads(w: Word, k: Plain, cond: Nibble, rd: Nibble, rn: Nibble, imm: Word) {
    var (c, i) := Decode(w);
    && c == cond && i.Data? && i.data.opcode == k.Opcode() && i.data.s == k.SetsFlags()
    && i.data.rn == (if k.MVN? then 0 else rn) && i.data.rd == (if k.CMP? then 0 else rd)
    && HasValue(i, imm)
  }

  /** Whatever the number, the mnemonics that do not check it are decoded as what was written
      exactly if it fits in eight bits; others from 0x100 on become another value or even
      another instruction. */
  lemma UncheckedImmediate(k: Plain, cond: Nibble, rd: Nibble, rn: Nibble, imm: int)
    ensures var w := UncheckedWord(k, cond, rd, rn, imm);
            (w.Some? && 0 <= imm < BASE && Reads(w.value, k, cond, rd, rn, imm)) <==> 0 <= imm < 256
  {
    if 0 <= imm < BASE {
      var w := Or(PlainHead(k, cond, rd, rn), imm);
      hide Or, Decode, HasValue, PlainHead;
      HeadEnds(k, cond, rd, rn);
      if imm < 256 {
        SmallReads(k, cond, rd, rn, imm);
      } else {
        OrKeepsLow(PlainHead(k, cond, rd, rn), imm);
        LargeMisread(w, imm);
      }
    }
  }

  lemma HeadEnds(k: Plain, cond: Nibble, rd: Nibble, rn: Nibble)
    ensures PlainHead(k, cond, rd, rn) % 0x1000 == 0
    ensures PlainHead(k, cond, rd, rn) == Word4(cond, k.Base(), if k.MVN? then 0 else rn, if k.CMP? then 0 else rd, 0)
  {
    var high: Byte := k.Base() / 0x10_0000;
    assert k.Base() == high * 0x10_0000;
    HeadWord(cond, high, if k.MVN? then 0 else rn, if k.CMP? then 0 else rd);
    hide Word4, Plain.Base;
  }

  lemma HeadWord(cond: Nibble, high: Byte, rn: Nibble, rd: Nibble)
    ensures 0 <= Word4(cond, high * 0x10_0000, rn, rd, 0) < BASE
    ensures Word4(cond, high * 0x10_0000, rn, rd, 0) % 0x1000 == 0
  {
    HeadMultiple(cond * 0x1_0000 + high * 0x100 + rn * 0x10 + rd);
  }

  lemma HeadMultiple(x: int)
    ensures x * 0x1000 % 0x1000 == 0
  {
  }

  lemma SmallReads(k: Plain, cond: Nibble, rd: Nibble, rn: Nibble, imm: Byte)
    ensures Reads(Or(PlainHead(k, cond, rd, rn), imm), k, cond, rd, rn, imm)
  {
    hide Decode, Or, PlainHead, RotateRight;
    HeadEnds(k, cond, rd, rn);
    OrAdds(PlainHead(k, cond, rd, rn), imm);
    PlainImmDecodes(k, cond, if k.CMP? then 0 else rd, if k.MVN? then 0 else rn, imm);
    RotatedNot(imm);
  }

  /** Laying a number over multiples of `Pow2(k)` keeps its low `k` bits, and all of a smaller one. */
  lemma {:induction false} OrLow(f: (bool, bool) -> bool, a: nat, b: nat, n: nat, k: nat)
    requires f == ((x, y) => x || y) && k <= n && a % Pow2(k) == 0
    ensures Bitwise(f, a, b, n) % Pow2(k) == b % Pow2(k)
    ensures a < Pow2(n) && b < Pow2(k) ==> Bitwise(f, a, b, n) == a + b
  {
    if k > 0 {
      var r := Bitwise(f, a / 2, b / 2, n - 1);
      HalfMultiple(a, Pow2(k - 1));
      OrLow(f, a / 2, b / 2, n - 1, k - 1);
      assert Bitwise(f, a, b, n) == 2 * r + b % 2;
      LowDoubles(r, b % 2, Pow2(k - 1));
      LowDoubles(b / 2, b % 2, Pow2(k - 1));
    } else if b == 0 {
      OrNothing(f, a, n);
    }
  }

  lemma {:induction false} OrNothing(f: (bool, bool) -> bool, a: nat, n: nat)
    requires f == ((x, y) => x || y)
    ensures a < Pow2(n) ==> Bitwise(f, a, 0, n) == a
  {
    if n > 0 { OrNothing(f, a / 2, n - 1); }
  }

  lemma HalfMultiple(a: nat, p: nat)
    requires p > 0 && a % (2 * p) == 0
    ensures a % 2 == 0 && a / 2 % p == 0
  {
    Quotient(a, 2 * p);
    var q := a / (2 * p);
    assert q * (2 * p) == 2 * (q * p);
    QuotientIs(a, 2, q * p, 0);
    QuotientIs(a / 2, p, q, 0);
  }

  lemma LowDoubles(v: nat, bit: nat, p: nat)
    requires p > 0 && bit < 2
    ensures (2 * v + bit) % (2 * p) == 2 * (v % p) + bit
  {
    Quotient(v, p);
    assert v / p * (2 * p) == 2 * (v / p * p);
    QuotientIs(2 * v + bit, 2 * p, v / p, 2 * (v % p) + bit);
  }

  lemma Twelve()
    ensures Pow2(12) == 0x1000
  {
  }

  lemma OrKeepsLow(a: Word, b: Word)
    requires a % 0x1000 == 0
    ensures Or(a, b) % 0x1000 == b % 0x1000
  {
    Twelve();
    OrLow((x, y) => x || y, a, b, 32, 12);
    hide Bitwise, Pow2;
  }

  lemma OrAdds(a: Word, b: Byte)
    requires a % 0x1000 == 0
    ensures Or(a, b) == a + b
  {
    Twelve();
    Pow2Known();
    OrLow((x, y) => x || y, a, b, 32, 12);
    hide Bitwise, Pow2;
  }

  /** The operand that the decoder finds in a word is in its low twelve bits. */
  lemma OperandLow(w: Word)
    ensures var i := Decode(w).1;
            i.Data? && i.data.op2.Immediate? ==>
              w % 0x1000 == i.data.op2.rotate * 0x100 + i.data.op2.imm && i.data.op2.imm < 256 && i.data.op2.rotate < 16
  {
    var f := Split(w);
    DivTwice(w, 0x10, 0x10);
    Quotient(w, 0x10);
    Quotient(w / 0x10, 0x10);
    Quotient(w / 0x100, 0x10);
    LowTwelve(w, w / 0x100 / 0x10, w / 0x100 % 0x10, w / 0x10 % 0x10, w % 0x10);
    DataFields(f);
    hide DecodeFields;
  }

  lemma LowTwelve(w: int, hi: int, c: int, b: int, a: int)
    requires w == ((hi * 0x10 + c) * 0x10 + b) * 0x10 + a && 0 <= c < 16 && 0 <= b < 16 && 0 <= a < 16
    ensures w % 0x1000 == c * 0x100 + (b * 0x10 + a)
  {
    QuotientIs(w, 0x1000, hi, c * 0x100 + b * 0x10 + a);
  }

  lemma DataFields(f: Fields)
    ensures var i := DecodeFields(f); i.Data? ==> i.data.op2 == OperandOf(f)
  {
    hide OperandOf, ListBits, SignedOffset;
  }

  lemma LargeMisread(w: Word, imm: Word)
    requires imm >= 256 && w % 0x1000 == imm % 0x1000
    ensures !HasValue(Decode(w).1, imm)
  {
    hide RotateRight, Decode;
    OperandLow(w);
    var i := Decode(w).1;
    if i.Data? && i.data.op2.Immediate? {
      RotatedLow(i.data.op2.imm, i.data.op2.rotate, imm);
    }
  }

  /** No byte and rotation that make the low twelve bits of a larger number rotate to it. */
  lemma RotatedLow(b: Byte, r: Nibble, imm: Word)
    requires imm >= 256 && imm % 0x1000 == r * 0x100 + b
    ensures RotateRight(b, 2 * r) != imm
  {
    hide RotateRight;
    if r == 0 {
      RotatedNot(b);
    } else if r <= 10 {
      RotatedFar(b, r, imm);
    } else {
      RotatedNear(b, r, imm);
    }
  }

  lemma RotatedNot(b: Byte)
    ensures RotateRight(b, 0) == b
  {
    assert Pow2(0) == 1;
  }

  lemma RotatedFar(b: Byte, r: nat, imm: Word)
    requires 1 <= r <= 10 && imm % 0x1000 == r * 0x100 + b
    ensures RotateRight(b, 2 * r) != imm
  {
    hide RotateRight, Pow2;
    WordHalves(b, 2 * r);
    LargePower(2 * r);
    var q := Pow2(20 - 2 * r);
    MulAssoc(b % Pow2(2 * r), q, 0x1000);
    QuotientIs(b % Pow2(2 * r) * q * 0x1000 + b / Pow2(2 * r), 0x1000, b % Pow2(2 * r) * q, b / Pow2(2 * r));
  }

  lemma RotatedNear(b: Byte, r: nat, imm: Word)
    requires 11 <= r <= 15 && imm % 0x1000 == r * 0x100 + b
    ensures RotateRight(b, 2 * r) != imm
  {
    hide RotateRight, Pow2;
    var p := Pow2(2 * r);
    SmallPower(2 * r);
    WordHalves(b, 2 * r);
    QuotientIs(b, p, 0, b);
    NearMultiples(b, r);
  }

  lemma NearMultiples(b: Byte, r: nat)
    requires 11 <= r <= 15
    ensures b * (if r == 11 then 1024 else if r == 12 then 256 else if r == 13 then 64
                 else if r == 14 then 16 else 4) % 0x1000
         != r * 0x100 + b
  {
  }

  lemma WordHalves(b: Byte, n: nat)
    requires n <= 32
    ensures RotateRight(b, n) == b % Pow2(n) * Pow2(32 - n) + b / Pow2(n) && 0 <= b / Pow2(n) <= b
            && 0 <= b % Pow2(n) <= b
  {
    hide RotateRight, Pow2;
    Pow2Known();
    Pow2Add(n, 32 - n);
    Quotient(b, Pow2(n));
    MulAtLeast(b / Pow2(n), Pow2(n));
    BelowQuotient(b, Pow2(n), Pow2(32 - n));
    RotateLow(b, n);
  }

  lemma RotateLow(b: Byte, n: nat)
    requires n <= 32 && b / Pow2(n) < Pow2(32 - n)
    ensures RotateRight(b, n) == b % Pow2(n) * Pow2(32 - n) + b / Pow2(n)
  {
    hide Pow2;
    Pow2Known();
    Pow2Add(n, 32 - n);
    Quotient(b, Pow2(n));
    PartsFit(b / Pow2(n), b % Pow2(n), Pow2(32 - n), Pow2(n));
  }

  lemma LargePower(n: nat)
    requires n <= 20
    ensures Pow2(32 - n) == Pow2(20 - n) * 0x1000
  {
    Pow2Add(20 - n, 12);
    Twelve();
  }

  lemma SmallPower(n: nat)
    requires n == 22 || n == 24 || n == 26 || n == 28 || n == 30
    ensures Pow2(n) >= 0x100
    ensures Pow2(32 - n) == if n == 22 then 1024 else if n == 24 then 256 else if n == 26 then 64
            else if n == 28 then 16 else 4
  {
    Pow2Add(8, n - 8);
    assert Pow2(8) == 256;
    MulMonotone(1, Pow2(n - 8), 256);
    assert Pow2(10) == 1024;
  }
}
