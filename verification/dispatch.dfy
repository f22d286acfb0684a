/// From an instruction word to its execution: the decoder's classes, what each does, and
/// which of them can leave the prefetch pipe behind.
module Dispatch {
  import opened Alu
  import opened CpuState
  import opened Banking
  import opened Arm
  import opened Transfers
  import opened Encoding

  /** Register numbers and fields are in range. */
  predicate InBounds(i: Instruction) {
    match i
    case Bx(rn) => rn < 16
    case BlockTransfer(b) => b.Valid()
    case Swap(_, rn, rd, rm) => rn < 16 && rd < 16 && rm < 16
    case Multiply(_, _, rd, rn, rs, rm) => rd < 16 && rn < 16 && rs < 16 && rm < 16
    case MultiplyLong(_, _, _, hi, lo, rs, rm) => hi < 16 && lo < 16 && rs < 16 && rm < 16
    case HalfTransfer(_, _, _, _, rn, rd, kind, immediate, offset) =>
      rn < 16 && rd < 16 && kind < 4 && offset < 0x100 && (immediate || offset < 16)
    case Mrs(_, rd) => rd < 16
    case Msr(_, _, _, _, operand) => operand < 0x1000
    case Transfer(_, _, _, _, _, rn, rd, _, offset) => rn < 16 && rd < 16 && offset < 0x1000
    case Data(d) => d.Valid()
    case _ => true
  }

  lemma DecodedInBounds(op: Word)
    ensures InBounds(Decode(op).1)
  {
    hide Bits;
    var f := Split(op);
    assert f.high / 2 % 16 < 16 && f.rs * 2 + f.low / 8 < 32 && f.low * 16 + f.rm < 256;
    assert f.rs * 16 + f.rm < 0x100 && Offset12(f) < 0x1000;
  }

  /** What an instruction does; an undefined one does nothing. */
  function ExecInstruction(s: Core, m: Ram, i: Instruction): Outcome
    requires InBounds(i)
  {
    match i
    case Bx(rn) => ExecBx(s, m, rn)
    case Swi => Jump(Enter(s, Supervisor, Offset(s.r[PC], -4), 0x08), m)
    case Branch(link, words) => ExecBranch(s, m, link, words)
    case BlockTransfer(b) => ExecBlock(s, m, b)
    case Swap(byte, rn, rd, rm) => ExecSwap(s, m, byte, rn, rd, rm)
    case Multiply(accumulate, flags, rd, rn, rs, rm) => ExecMultiply(s, m, accumulate, flags, rd, rn, rs, rm)
    case MultiplyLong(signed, accumulate, flags, hi, lo, rs, rm) =>
      ExecMultiplyLong(s, m, signed, accumulate, flags, hi, lo, rs, rm)
    case HalfTransfer(p, u, w, l, rn, rd, kind, immediate, offset) =>
      ExecHalf(s, m, p, u, w, l, rn, rd, kind, immediate, offset)
    case Mrs(spsr, rd) => ExecMrs(s, m, spsr, rd)
    case Msr(spsr, flags, control, immediate, operand) => ExecMsr(s, m, spsr, flags, control, immediate, operand)
    case Transfer(p, u, byte, w, l, rn, rd, register, offset) =>
      ExecTransfer(s, m, p, u, byte, w, l, rn, rd, register, offset)
    case Data(d) => ExecDataProcessing(s, m, d)
    case Undefined => Next(s, m)
  }

  /** What an ARM instruction word does. */
  function ExecArm(s: Core, m: Ram, op: Word): Outcome {
    DecodedInBounds(op);
    ExecInstruction(s, m, Decode(op).1)
  }

  /** A block transfer that writes its new base to PC, without refilling the pipe. */
  predicate WritesBackPc(i: Instruction) {
    i.BlockTransfer? && i.block.Valid() && i.block.w && i.block.rn == PC && Count(i.block) > 0
  }

  /** PC is a destination that the instruction writes without refilling the pipe. */
  predicate StraysPc(i: Instruction) {
    match i
    case BlockTransfer(_) => WritesBackPc(i)
    case Swap(_, _, rd, _) => rd == PC
    case Multiply(_, _, rd, _, _, _) => rd == PC
    case MultiplyLong(_, _, _, hi, lo, _, _) => hi == PC || lo == PC
    case Mrs(_, rd) => rd == PC
    case HalfTransfer(p, _, w, l, rn, rd, _, _, _) => rn == PC && (!p || w) && (rn != rd || !l)
    case Transfer(p, _, _, w, l, rn, rd, _, _) => rn == PC && (!p || w) && (rn != rd || !l)
    case _ => false
  }

  /** A status write of another T bit. */
  predicate StraysT(s: Core, i: Instruction) {
    i.Msr? && i.operand < 0x1000 && !i.spsr && i.control
        && WordPsr(StatusOperand(s, i.immediate, i.operand)).t != s.cpsr.t
  }

  lemma ComputedKeepsT(p: Psr, opcode: nat, a: Word, b: Word, carry: bool)
    ensures Computed(p, opcode, a, b, carry).1.t == p.t
  {
    hide And, Or, Xor, AddFlags;
  }

  lemma DataKeepsPc(s: Core, m: Ram, d: DataProcessing)
    requires d.Valid() && ExecDataProcessing(s, m, d).Next?
    ensures var o := ExecDataProcessing(s, m, d); o.core.r[PC] == s.r[PC] && o.core.cpsr.t == s.cpsr.t
  {
    var (b, carry) := Operand2(s, d);
    ComputedKeepsT(s.cpsr, d.opcode, Operand1(s, d), b, carry);
    hide Operand2, Operand1, Computed;
  }

  lemma {:induction false} LoadKeeps(r: Regs, m: Ram, list: seq<bool>, cur: Word, i: nat)
    requires |list| == 16 && i <= 16 && !list[PC]
    ensures LoadFrom(r, m, list, cur, i)[PC] == r[PC]
    decreases 16 - i
  {
    if i < 16 {
      LoadKeeps(if list[i] then r[i := ReadWord(m, cur)] else r, m, list, if list[i] then Offset(cur, 4) else cur,
                i + 1);
    }
  }

  lemma {:induction false} BelowAtMost(list: seq<bool>, i: nat)
    requires i <= |list|
    ensures Below(list, i) <= i
  {
    if i > 0 { BelowAtMost(list, i - 1); }
  }

  lemma SwitchKeepsPc(s: Core, mode: Mode)
    ensures SwitchMode(s, mode).r[PC] == s.r[PC] && SwitchMode(s, mode).cpsr == s.cpsr
  {
    SwitchLow(s, mode, PC);
  }

  lemma BlockKeepsPc(s: Core, m: Ram, b: Block)
    requires b.Valid() && ExecBlock(s, m, b).Next?
    ensures var o := ExecBlock(s, m, b);
            o.core.cpsr.t == s.cpsr.t && (o.core.r[PC] == s.r[PC] <==> !WritesBackPc(BlockTransfer(b)))
  {
    if Count(b) > 0 {
      BelowAtMost(b.list, 16);
      var t := SwitchMode(s, TransferMode(s, b));
      SwitchKeepsPc(s, TransferMode(s, b));
      if b.l { LoadKeeps(t.r, m, b.list, Start(s.r[b.rn], b), 0); }
      var t1 := if b.l then t.(r := LoadFrom(t.r, m, b.list, Start(s.r[b.rn], b), 0)) else t;
      SwitchKeepsPc(t1, s.mode);
      FinalMoves(s.r[b.rn], b);
      hide SwitchMode, LoadFrom, StoreFrom, Start, Final, Count;
    }
  }

  lemma FinalMoves(base: Word, b: Block)
    requires b.Valid() && 0 < Count(b) <= 16
    ensures Final(base, b) != base
  {
    hide Below;
  }

  lemma SetCpsrKeepsPc(s: Core, v: Psr, flags: bool, control: bool)
    ensures var t := SetCpsr(s, v, flags, control);
            t.r[PC] == s.r[PC] && t.cpsr.t == (if control then v.t else s.cpsr.t)
  {
    hide SwitchMode, FromBits;
    SwitchKeepsPc(s, FromBits(Masked(CpsrBits(s), v, flags, control).low));
  }

  lemma MsrKeepsPc(s: Core, m: Ram, spsr: bool, flags: bool, control: bool, immediate: bool, operand: nat)
    requires operand < 0x1000
    ensures var o := ExecMsr(s, m, spsr, flags, control, immediate, operand);
            && o.core.r[PC] == s.r[PC]
            && (o.core.cpsr.t == s.cpsr.t <==> !StraysT(s, Msr(spsr, flags, control, immediate, operand)))
  {
    hide WordPsr, StatusOperand, SetCpsr, Masked;
    SetCpsrKeepsPc(s, WordPsr(StatusOperand(s, immediate, operand)), flags, control);
  }

  /** An instruction that does not refill the pipe leaves PC alone unless PC is one of its
      unflushed destinations, which changes it for certain if it is the base of a block; it
      leaves the T bit alone exactly if it is no status write of another T. */
  lemma StaysInLine(s: Core, m: Ram, i: Instruction)
    requires InBounds(i) && ExecInstruction(s, m, i).Next?
    ensures var o := ExecInstruction(s, m, i);
            && (o.core.r[PC] != s.r[PC] ==> StraysPc(i))
            && (WritesBackPc(i) ==> o.core.r[PC] != s.r[PC])
            && (o.core.cpsr.t == s.cpsr.t <==> !StraysT(s, i))
  {
    hide ExecDataProcessing, ExecBlock, ExecMsr, WordPsr, StatusOperand, Product, PsrWord, WriteByte, WriteHalf,
         LoadedHalf, TransferOffset;
    match i
    case BlockTransfer(b) => BlockKeepsPc(s, m, b);
    case Data(d) => DataKeepsPc(s, m, d);
    case Msr(spsr, flags, control, immediate, operand) =>
      MsrKeepsPc(s, m, spsr, flags, control, immediate, operand);
    case _ =>
  }
}
