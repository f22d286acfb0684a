/// Every instruction word: what each class looks like bit by bit, and that the decoder reads
/// it so (ARM DDI 0100, section A3.1).
module WordForms {
  import opened Arithmetic
  import opened Alu
  import opened Shifter
  import opened Arm
  import opened Encoding
  import opened Dispatch

  /** Instructions that have a word: branches in reach, halfword transfers that are none of the
      multiplies, and data processing that is none of the status transfers. */
  predicate Encodable(i: Instruction) {
    InBounds(i)
    && match i
       case Branch(_, words) => -0x80_0000 <= words < 0x80_0000
       case HalfTransfer(_, _, _, _, _, _, kind, _, _) => kind != 0
       case Msr(_, _, _, immediate, operand) => immediate || operand < 16
       case Data(d) => d.s || d.opcode < 8 || d.opcode > 11
       case Undefined => false
       case _ => true
  }

  function ShiftCode(shift: Shift): (k: nat)
    ensures k < 4
  {
    match shift case LSL => 0 case LSR => 1 case ASR => 2 case ROR => 3
  }

  function OperandCode(op: Operand): int {
    match op
    case Immediate(imm, rotate) => 0x200_0000 + rotate * 0x100 + imm
    case ByAmount(rm, shift, amount) => amount * 0x80 + ShiftCode(shift) * 0x20 + rm
    case ByRegister(rm, shift, rs) => rs * 0x100 + ShiftCode(shift) * 0x20 + 0x10 + rm
  }

  /** The word below the condition; `comment` is what a software interrupt carries along. */
  function Form(i: Instruction, comment: nat): int {
    match i
    case Bx(rn) => 0x12F_FF10 + rn
    case Swi => 0xF00_0000 + comment
    case Branch(link, words) =>
      0xA00_0000 + Bit(link) * 0x100_0000 + if words < 0 then words + 0x100_0000 else words
    case BlockTransfer(b) =>
      0x800_0000 + Bit(b.p) * 0x100_0000 + Bit(b.u) * 0x80_0000 + Bit(b.s) * 0x40_0000 + Bit(b.w) * 0x20_0000
      + Bit(b.l) * 0x10_0000 + b.rn * 0x1_0000 + ListValue(b.list)
    case Swap(byte, rn, rd, rm) => 0x100_0090 + Bit(byte) * 0x40_0000 + rn * 0x1_0000 + rd * 0x1000 + rm
    case Multiply(accumulate, s, rd, rn, rs, rm) =>
      0x90 + Bit(accumulate) * 0x20_0000 + Bit(s) * 0x10_0000 + rd * 0x1_0000 + rn * 0x1000 + rs * 0x100 + rm
    case MultiplyLong(signed, accumulate, s, hi, lo, rs, rm) =>
      0x80_0090 + Bit(signed) * 0x40_0000 + Bit(accumulate) * 0x20_0000 + Bit(s) * 0x10_0000 + hi * 0x1_0000
      + lo * 0x1000 + rs * 0x100 + rm
    case HalfTransfer(p, u, w, l, rn, rd, kind, immediate, offset) =>
      0x90 + Bit(p) * 0x100_0000 + Bit(u) * 0x80_0000 + Bit(immediate) * 0x40_0000 + Bit(w) * 0x20_0000
      + Bit(l) * 0x10_0000 + rn * 0x1_0000 + rd * 0x1000 + offset / 0x10 * 0x100 + kind * 0x20 + offset % 0x10
    case Mrs(spsr, rd) => 0x10F_0000 + Bit(spsr) * 0x40_0000 + rd * 0x1000
    case Msr(spsr, flags, control, immediate, operand) =>
      0x120_F000 + Bit(immediate) * 0x200_0000 + Bit(spsr) * 0x40_0000 + Bit(flags) * 0x8_0000
      + Bit(control) * 0x1_0000 + operand
    case Transfer(p, u, byte, w, l, rn, rd, register, offset) =>
      0x400_0000 + Bit(register) * 0x200_0000 + Bit(p) * 0x100_0000 + Bit(u) * 0x80_0000 + Bit(byte) * 0x40_0000
      + Bit(w) * 0x20_0000 + Bit(l) * 0x10_0000 + rn * 0x1_0000 + rd * 0x1000 + offset
    case Data(d) => d.opcode * 0x20_0000 + Bit(d.s) * 0x10_0000 + d.rn * 0x1_0000 + d.rd * 0x1000 + OperandCode(d.op2)
    case Undefined => 0
  }

  /** The word decodes to the condition and the instruction. */
  predicate Reads(w: int, cond: Nibble, i: Instruction) { 0 <= w < BASE && Decode(w) == (cond, i) }

  lemma ReadsFields(f: Fields, w: int, i: Instruction)
    requires w == Join(f) && DecodeFields(f) == i
    ensures Reads(w, f.cond, i)
  {
    SplitJoin(f);
    hide Split, DecodeFields;
  }

  // ------------------------------------------------------------------ class by class

  lemma BxReads(cond: Nibble, rn: Nibble)
    ensures Reads(cond * 0x1000_0000 + Form(Bx(rn), 0), cond, Bx(rn))
  {
    ReadsFields(Fields(cond, 0x12, 15, 15, 15, 1, rn), cond * 0x1000_0000 + Form(Bx(rn), 0), Bx(rn));
  }

  lemma Nibbles6(v: nat)
    requires v < 0x100_0000
    ensures var x, y := v / 0x10_0000, v % 0x10_0000;
            && x < 16 && y / 0x1_0000 < 16 && v == x * 0x10_0000 + y
            && y == y / 0x1_0000 * 0x1_0000 + y / 0x1000 % 16 * 0x1000 + y / 0x100 % 16 * 0x100 + y / 0x10 % 16 * 0x10
                    + y % 16
  {
    Quotient(v, 0x10_0000);
    Nibbles5(v % 0x10_0000);
  }

  lemma Nibbles5(y: nat)
    requires y < 0x10_0000
    ensures y == y / 0x1_0000 * 0x1_0000 + y / 0x1000 % 16 * 0x1000 + y / 0x100 % 16 * 0x100 + y / 0x10 % 16 * 0x10
                 + y % 16
  {
    Quotient(y, 16);
    Quotient(y / 0x10, 16);
    Quotient(y / 0x100, 16);
    Quotient(y / 0x1000, 16);
    DivTwice(y, 0x10, 16);
    DivTwice(y, 0x100, 16);
    DivTwice(y, 0x1000, 16);
  }

  /** The fields of a word whose bits 27 to 24 are `top`, above a 24-bit number. */
  function Low24(cond: Nibble, top: nat, v: nat): Fields
    requires top < 16 && v < 0x100_0000
  {
    var y := v % 0x10_0000;
    Fields(cond, top * 16 + v / 0x10_0000, y / 0x1_0000, y / 0x1000 % 16, y / 0x100 % 16, y / 0x10 % 16, y % 16)
  }

  lemma SwiReads(cond: Nibble, comment: nat)
    requires comment < 0x100_0000
    ensures Reads(cond * 0x1000_0000 + Form(Swi, comment), cond, Swi)
  {
    var f := Low24(cond, 15, comment);
    Nibbles6(comment);
    assert f.high / 16 == 15 && DecodeFields(f) == Swi;
    ReadsFields(f, cond * 0x1000_0000 + Form(Swi, comment), Swi);
  }

  lemma BranchFields(f: Fields)
    requires f.high / 32 == 5
    ensures DecodeFields(f) == Branch(Bit24(f), SignedOffset(f))
  {
    hide SignedOffset;
  }

  lemma BranchReads(cond: Nibble, link: bool, words: int)
    requires -0x80_0000 <= words < 0x80_0000
    ensures Reads(cond * 0x1000_0000 + Form(Branch(link, words), 0), cond, Branch(link, words))
  {
    var v := if words < 0 then words + 0x100_0000 else words;
    var f := Low24(cond, 10 + Bit(link), v);
    Nibbles6(v);
    BranchFields(f);
    BranchHigh(Bit(link), v / 0x10_0000);
    hide DecodeFields;
    assert Bit24(f) == link && SignedOffset(f) == words;
    ReadsFields(f, cond * 0x1000_0000 + Form(Branch(link, words), 0), Branch(link, words));
  }

  lemma BranchHigh(link: nat, x: nat)
    requires link < 2 && x < 16
    ensures var h := (10 + link) * 16 + x; h / 32 == 5 && h / 16 % 2 == link && h % 16 == x
  {
  }

  /** Bits 24 to 20 above a multiple of 32. */
  function FiveHigh(top: nat, b4: bool, b3: bool, b2: bool, b1: bool, b0: bool): nat {
    top * 32 + Bit(b4) * 16 + Bit(b3) * 8 + Bit(b2) * 4 + Bit(b1) * 2 + Bit(b0)
  }

  lemma FiveBits(top: nat, b4: bool, b3: bool, b2: bool, b1: bool, b0: bool)
    ensures var h := FiveHigh(top, b4, b3, b2, b1, b0);
            && h / 32 == top && (h / 16 % 2 == 1 <==> b4) && (h / 8 % 2 == 1 <==> b3) && (h / 4 % 2 == 1 <==> b2)
            && (h / 2 % 2 == 1 <==> b1) && (h % 2 == 1 <==> b0) && h < 32 * top + 32
  {
    var x4, x3, x2, x1, x0 := Bit(b4), Bit(b3), Bit(b2), Bit(b1), Bit(b0);
    FiveDigits(top, x4, x3, x2, x1, x0);
  }

  lemma FiveDigits(top: nat, x4: nat, x3: nat, x2: nat, x1: nat, x0: nat)
    requires x4 < 2 && x3 < 2 && x2 < 2 && x1 < 2 && x0 < 2
    ensures var h := top * 32 + x4 * 16 + x3 * 8 + x2 * 4 + x1 * 2 + x0;
            && h / 32 == top && h / 16 % 2 == x4 && h / 8 % 2 == x3 && h / 4 % 2 == x2 && h / 2 % 2 == x1 && h % 2 == x0
  {
    var h4 := top * 2 + x4;
    var h3 := h4 * 2 + x3;
    var h2 := h3 * 2 + x2;
    var h1 := h2 * 2 + x1;
    var h := h1 * 2 + x0;
    QuotientIs(h, 32, top, x4 * 16 + x3 * 8 + x2 * 4 + x1 * 2 + x0);
    QuotientIs(h, 16, h4, x3 * 8 + x2 * 4 + x1 * 2 + x0);
    QuotientIs(h, 8, h3, x2 * 4 + x1 * 2 + x0);
    QuotientIs(h, 4, h2, x1 * 2 + x0);
    QuotientIs(h, 2, h1, x0);
    QuotientIs(h4, 2, top, x4);
    QuotientIs(h3, 2, h4, x3);
    QuotientIs(h2, 2, h3, x2);
    QuotientIs(h1, 2, h2, x1);
  }

  lemma {:induction false} ListFits(list: seq<bool>)
    ensures ListValue(list) < Pow2(|list|)
  {
    if list != [] { ListFits(list[1..]); }
  }

  /** The fields of a word whose bits 27 to 20 are `high`, above a twelve-bit number. */
  function Low12(cond: Nibble, high: Byte, rn: Nibble, rd: Nibble, v: nat): Fields
    requires v < 0x1000
  {
    Fields(cond, high, rn, rd, v / 0x100, v / 0x10 % 16, v % 16)
  }

  lemma JoinLow12(cond: Nibble, high: Byte, rn: Nibble, rd: Nibble, v: nat)
    requires v < 0x1000
    ensures var f := Low12(cond, high, rn, rd, v);
            && Join(f) == cond * 0x1000_0000 + high * 0x10_0000 + rn * 0x1_0000 + rd * 0x1000 + v
            && Offset12(f) == v
  {
    Nibbles(v);
  }

  lemma BlockReads(cond: Nibble, b: Block)
    requires b.Valid()
    ensures Reads(cond * 0x1000_0000 + Form(BlockTransfer(b), 0), cond, BlockTransfer(b))
  {
    hide ListValue, DecodeFields, Bits, Bit, FiveHigh, Form, Join, Reads, Offset12;
    var v := ListValue(b.list);
    ListFits16(b.list);
    ListRoundTrip(b.list);
    FiveBits(4, b.p, b.u, b.s, b.w, b.l);
    Quotient(v, 0x1000);
    var high := FiveHigh(4, b.p, b.u, b.s, b.w, b.l);
    var f := Low12(cond, high, b.rn, v / 0x1000, v % 0x1000);
    JoinLow12(cond, high, b.rn, v / 0x1000, v % 0x1000);
    BlockForm(b);
    BlockFromFields(f, b);
    ReadsFields(f, cond * 0x1000_0000 + Form(BlockTransfer(b), 0), BlockTransfer(b));
  }

  lemma ListFits16(list: seq<bool>)
    requires |list| == 16
    ensures ListValue(list) < 0x1_0000
  {
    ListFits(list);
    Pow2Add(8, 8);
    assert Pow2(8) == 0x100;
  }

  lemma BlockForm(b: Block)
    requires b.Valid()
    ensures Form(BlockTransfer(b), 0)
         == FiveHigh(4, b.p, b.u, b.s, b.w, b.l) * 0x10_0000 + b.rn * 0x1_0000 + ListValue(b.list)
  {
    hide ListValue, Bit;
  }

  lemma BlockFromFields(f: Fields, b: Block)
    requires b.Valid() && f.high == FiveHigh(4, b.p, b.u, b.s, b.w, b.l) && f.rn == b.rn
    requires f.rd * 0x1000 + Offset12(f) == ListValue(b.list) < 0x1_0000
    ensures DecodeFields(f) == BlockTransfer(b)
  {
    hide ListValue, DecodeFields, Bits, Bit, Offset12, FiveHigh;
    FiveBits(4, b.p, b.u, b.s, b.w, b.l);
    ListRoundTrip(b.list);
    BlockFields(f);
  }

  lemma SwapReads(cond: Nibble, byte: bool, rn: Nibble, rd: Nibble, rm: Nibble)
    ensures Reads(cond * 0x1000_0000 + Form(Swap(byte, rn, rd, rm), 0), cond, Swap(byte, rn, rd, rm))
  {
    hide DecodeFields;
    var f := Fields(cond, if byte then 0x14 else 0x10, rn, rd, 0, 9, rm);
    SwapFields(f);
    ReadsFields(f, cond * 0x1000_0000 + Form(Swap(byte, rn, rd, rm), 0), Swap(byte, rn, rd, rm));
  }

  lemma SwapFields(f: Fields)
    requires (f.high == 0x10 || f.high == 0x14) && f.low == 9
    ensures DecodeFields(f) == Swap(f.high == 0x14, f.rn, f.rd, f.rm)
  {
    assert f.high / 16 == 1 && f.high / 32 == 0 && Bit22(f) == (f.high == 0x14);
    hide Bit20, Bit21, Bit22, Bit23, Bit24, Bit25, Offset12, SignedOffset, ListBits, OperandOf;
  }

  lemma MultiplyReads(cond: Nibble, accumulate: bool, s: bool, rd: Nibble, rn: Nibble, rs: Nibble, rm: Nibble)
    ensures var i := Multiply(accumulate, s, rd, rn, rs, rm); Reads(cond * 0x1000_0000 + Form(i, 0), cond, i)
  {
    var i := Multiply(accumulate, s, rd, rn, rs, rm);
    var f := Fields(cond, Bit(accumulate) * 2 + Bit(s), rd, rn, rs, 9, rm);
    assert DecodeFields(f) == i;
    ReadsFields(f, cond * 0x1000_0000 + Form(i, 0), i);
  }

  lemma LongFields(f: Fields)
    requires f.high / 8 == 1 && f.low == 9
    ensures DecodeFields(f) == MultiplyLong(Bit22(f), Bit21(f), Bit20(f), f.rn, f.rd, f.rs, f.rm)
  {
  }

  lemma MultiplyLongReads(cond: Nibble, signed: bool, accumulate: bool, s: bool, hi: Nibble, lo: Nibble, rs: Nibble,
                          rm: Nibble)
    ensures var i := MultiplyLong(signed, accumulate, s, hi, lo, rs, rm);
            Reads(cond * 0x1000_0000 + Form(i, 0), cond, i)
  {
    hide DecodeFields;
    var i := MultiplyLong(signed, accumulate, s, hi, lo, rs, rm);
    FiveBits(0, false, true, signed, accumulate, s);
    var f := Fields(cond, FiveHigh(0, false, true, signed, accumulate, s), hi, lo, rs, 9, rm);
    LongFields(f);
    assert DecodeFields(f) == i by { hide Bit, FiveHigh; }
    ReadsFields(f, cond * 0x1000_0000 + Form(i, 0), i);
  }

  lemma HalfFormFields(f: Fields)
    requires f.high < 32 && (f.low == 0xB || f.low == 0xD || f.low == 0xF)
    ensures DecodeFields(f) == HalfTransfer(Bit24(f), Bit23(f), Bit21(f), Bit20(f), f.rn, f.rd, f.low / 2 % 4, Bit22(f),
                                            if Bit22(f) then f.rs * 16 + f.rm else f.rm)
  {
    hide SignedOffset, ListBits, OperandOf;
  }

  lemma HalfReads(cond: Nibble, p: bool, u: bool, w: bool, l: bool, rn: Nibble, rd: Nibble, kind: nat,
                  immediate: bool, offset: nat)
    requires 1 <= kind < 4 && offset < 0x100 && (immediate || offset < 16)
    ensures var i := HalfTransfer(p, u, w, l, rn, rd, kind, immediate, offset);
            Reads(cond * 0x1000_0000 + Form(i, 0), cond, i)
  {
    hide DecodeFields, Bit, Join;
    var i := HalfTransfer(p, u, w, l, rn, rd, kind, immediate, offset);
    var high := FiveHigh(0, p, u, immediate, w, l);
    FiveBits(0, p, u, immediate, w, l);
    var f := Fields(cond, high, rn, rd, offset / 16, 9 + 2 * kind, offset % 16);
    HalfFormFields(f);
    Quotient(offset, 16);
    assert DecodeFields(f) == i;
    assert Join(f) == cond * 0x1000_0000 + Form(i, 0) by {
      HalfJoin(cond, p, u, w, l, rn, rd, kind, immediate, offset);
    }
    ReadsFields(f, cond * 0x1000_0000 + Form(i, 0), i);
  }

  lemma HalfJoin(cond: Nibble, p: bool, u: bool, w: bool, l: bool, rn: Nibble, rd: Nibble, kind: nat, immediate: bool,
                 offset: nat)
    requires 1 <= kind < 4 && offset < 0x100 && FiveHigh(0, p, u, immediate, w, l) < 32
    ensures Join(Fields(cond, FiveHigh(0, p, u, immediate, w, l), rn, rd, offset / 16, 9 + 2 * kind, offset % 16))
         == cond * 0x1000_0000 + Form(HalfTransfer(p, u, w, l, rn, rd, kind, immediate, offset), 0)
  {
    hide Bit;
  }

  lemma MrsCpsrFields(cond: Nibble, rd: Nibble)
    ensures DecodeFields(Fields(cond, 0x10, 15, rd, 0, 0, 0)) == Mrs(false, rd)
  {
    var f := Fields(cond, 0x10, 15, rd, 0, 0, 0);
    assert f.high / 16 == 1 && f.high / 32 == 0 && f.high / 8 == 2 && !Bit22(f) && Offset12(f) == 0;
    hide Bit20, Bit21, Bit22, Bit23, Bit24, Bit25, Offset12, SignedOffset, ListBits, OperandOf;
  }

  lemma MrsReads(cond: Nibble, spsr: bool, rd: Nibble)
    ensures Reads(cond * 0x1000_0000 + Form(Mrs(spsr, rd), 0), cond, Mrs(spsr, rd))
  {
    hide DecodeFields;
    if spsr {
      MrsFields(cond, rd);
    } else {
      MrsCpsrFields(cond, rd);
    }
    ReadsFields(Fields(cond, if spsr then 0x14 else 0x10, 15, rd, 0, 0, 0),
                cond * 0x1000_0000 + Form(Mrs(spsr, rd), 0), Mrs(spsr, rd));
  }

  lemma MsrFields(f: Fields)
    requires ((f.high == 0x12 || f.high == 0x16) && f.rd == 15 && f.rs == 0 && f.low == 0)
             || ((f.high == 0x32 || f.high == 0x36) && f.rd == 15)
    ensures DecodeFields(f) == Msr(Bit22(f), f.rn / 8 == 1, f.rn % 2 == 1, Bit25(f), Offset12(f))
  {
    hide SignedOffset, ListBits, OperandOf, Offset12;
  }

  lemma MsrReads(cond: Nibble, spsr: bool, flags: bool, control: bool, immediate: bool, operand: nat)
    requires operand < (if immediate then 0x1000 else 16)
    ensures var i := Msr(spsr, flags, control, immediate, operand); Reads(cond * 0x1000_0000 + Form(i, 0), cond, i)
  {
    hide DecodeFields, Join, Offset12;
    var i := Msr(spsr, flags, control, immediate, operand);
    var high := 0x12 + Bit(immediate) * 32 + Bit(spsr) * 4;
    var f := Low12(cond, high, Bit(flags) * 8 + Bit(control), 15, operand);
    JoinLow12(cond, high, Bit(flags) * 8 + Bit(control), 15, operand);
    MsrFields(f);
    StatusBits(immediate, spsr, flags, control);
    assert DecodeFields(f) == i by { hide Bit; }
    ReadsFields(f, cond * 0x1000_0000 + Form(i, 0), i);
  }

  lemma StatusBits(immediate: bool, spsr: bool, flags: bool, control: bool)
    ensures var h, n := 0x12 + Bit(immediate) * 32 + Bit(spsr) * 4, Bit(flags) * 8 + Bit(control);
            && (h / 4 % 2 == 1 <==> spsr) && (h / 32 % 2 == 1 <==> immediate) && (n / 8 == 1 <==> flags)
            && (n % 2 == 1 <==> control)
  {
  }

  lemma TransferReads(cond: Nibble, p: bool, u: bool, byte: bool, w: bool, l: bool, rn: Nibble, rd: Nibble,
                      register: bool, offset: nat)
    requires offset < 0x1000
    ensures var i := Transfer(p, u, byte, w, l, rn, rd, register, offset);
            Reads(cond * 0x1000_0000 + Form(i, 0), cond, i)
  {
    hide DecodeFields, Join, Offset12;
    var i := Transfer(p, u, byte, w, l, rn, rd, register, offset);
    var high := FiveHigh(2 + Bit(register), p, u, byte, w, l);
    FiveBits(2 + Bit(register), p, u, byte, w, l);
    var f := Low12(cond, high, rn, rd, offset);
    JoinLow12(cond, high, rn, rd, offset);
    SingleFields(f);
    assert DecodeFields(f) == i;
    hide Bit;
    ReadsFields(f, cond * 0x1000_0000 + Form(i, 0), i);
  }

  /** Opcode and S bit in bits 24 to 20. */
  lemma DataHigh(opcode: nat, s: bool)
    requires opcode < 16
    ensures var h := opcode * 2 + Bit(s);
            && h < 32 && h / 2 % 16 == opcode && (h % 2 == 1 <==> s) && (h + 32) / 2 % 16 == opcode
            && ((h + 32) % 2 == 1 <==> s) && (s || opcode < 8 || opcode > 11 ==> !Status(h) && !Status(h + 32))
  {
  }

  lemma ShiftCodes(cond: Nibble, high: Byte, rn: Nibble, rd: Nibble, rs: Nibble, shift: Shift, low: nat, rm: Nibble)
    requires low == 0 || low == 1 || low == 8
    ensures var f := Fields(cond, high, rn, rd, rs, low + 2 * ShiftCode(shift), rm);
            ShiftOf(f) == shift && f.low % 2 == low % 2 && f.low / 8 == low / 8
  {
  }

  lemma DataReads(cond: Nibble, d: DataProcessing)
    requires d.Valid() && (d.s || d.opcode < 8 || d.opcode > 11)
    ensures Reads(cond * 0x1000_0000 + Form(Data(d), 0), cond, Data(d))
  {
    hide DecodeFields, ShiftCode, ShiftOf, Status;
    DataHigh(d.opcode, d.s);
    var high := d.opcode * 2 + Bit(d.s);
    var w := cond * 0x1000_0000 + Form(Data(d), 0);
    match d.op2
    case Immediate(imm, rotate) =>
      var f := Fields(cond, high + 32, d.rn, d.rd, rotate, imm / 16, imm % 16);
      ImmediateFields(f);
      Quotient(imm, 16);
      ReadsFields(f, w, Data(d));
    case ByAmount(rm, shift, amount) =>
      Quotient(amount, 2);
      var low := amount % 2 * 8;
      ShiftCodes(cond, high, d.rn, d.rd, amount / 2, shift, low, rm);
      var f := Fields(cond, high, d.rn, d.rd, amount / 2, low + 2 * ShiftCode(shift), rm);
      RegisterFields(f);
      ReadsFields(f, w, Data(d));
    case ByRegister(rm, shift, rs) =>
      ShiftCodes(cond, high, d.rn, d.rd, rs, shift, 1, rm);
      var f := Fields(cond, high, d.rn, d.rd, rs, 1 + 2 * ShiftCode(shift), rm);
      RegisterFields(f);
      ReadsFields(f, w, Data(d));
  }

  lemma CommentUnused(i: Instruction, comment: nat)
    requires !i.Swi?
    ensures Form(i, comment) == Form(i, 0)
  {
    hide ListValue, OperandCode, Bit;
  }

  predicate Memory(i: Instruction) { i.BlockTransfer? || i.Swap? || i.HalfTransfer? || i.Transfer? }

  lemma MemoryReads(i: Instruction, cond: Nibble)
    requires Encodable(i) && Memory(i)
    ensures Reads(cond * 0x1000_0000 + Form(i, 0), cond, i)
  {
    hide Reads, Form;
    match i
    case BlockTransfer(b) => BlockReads(cond, b);
    case Swap(byte, rn, rd, rm) => SwapReads(cond, byte, rn, rd, rm);
    case HalfTransfer(p, u, w, l, rn, rd, kind, immediate, offset) =>
      HalfReads(cond, p, u, w, l, rn, rd, kind, immediate, offset);
    case Transfer(p, u, byte, w, l, rn, rd, register, offset) =>
      TransferReads(cond, p, u, byte, w, l, rn, rd, register, offset);
  }

  predicate Arithmetical(i: Instruction) { i.Multiply? || i.MultiplyLong? || i.Mrs? || i.Msr? || i.Data? }

  lemma ArithmeticReads(i: Instruction, cond: Nibble)
    requires Encodable(i) && Arithmetical(i)
    ensures Reads(cond * 0x1000_0000 + Form(i, 0), cond, i)
  {
    hide Reads, Form, Bit;
    match i
    case Multiply(accumulate, s, rd, rn, rs, rm) => MultiplyReads(cond, accumulate, s, rd, rn, rs, rm);
    case MultiplyLong(signed, accumulate, s, hi, lo, rs, rm) =>
      MultiplyLongReads(cond, signed, accumulate, s, hi, lo, rs, rm);
    case Mrs(spsr, rd) => MrsReads(cond, spsr, rd);
    case Msr(spsr, flags, control, immediate, operand) => MsrReads(cond, spsr, flags, control, immediate, operand);
    case Data(d) => DataReads(cond, d);
  }

  /** Every instruction that has a word, under every condition, is read back from it. */
  lemma WordsDecode(i: Instruction, cond: Nibble, comment: nat)
    requires Encodable(i) && comment < 0x100_0000
    ensures Reads(cond * 0x1000_0000 + Form(i, comment), cond, i)
  {
    if i.Swi? {
      SwiReads(cond, comment);
    } else {
      CommentUnused(i, comment);
      hide Reads, Form;
      if Memory(i) {
        MemoryReads(i, cond);
      } else if Arithmetical(i) {
        ArithmeticReads(i, cond);
      } else if i.Bx? {
        BxReads(cond, i.rn);
      } else {
        BranchReads(cond, i.link, i.words);
      }
    }
  }
}
