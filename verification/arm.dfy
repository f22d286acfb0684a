/// The ARM instructions the models execute: data processing and block transfer.
module Arm {
  import opened Alu
  import opened Shifter
  import opened CpuState

  /** What an instruction leaves behind; after a jump the pipe is refilled. */
  datatype Outcome = Next(core: Core, ram: Ram) | Jump(core: Core, ram: Ram)

  // -------------------------------------------------------------- data processing

  datatype Operand =
    | Immediate(imm: nat, rotate: nat)
    | ByAmount(rm: nat, shift: Shift, amount: nat)
    | ByRegister(rm: nat, shift: Shift, rs: nat)

  datatype DataProcessing = DataProcessing(opcode: nat, s: bool, rn: nat, rd: nat, op2: Operand) {
    predicate Valid() {
      && opcode < 16 && rn < 16 && rd < 16
      && match op2
         case Immediate(imm, rotate) => imm < 256 && rotate < 16
         case ByAmount(rm, _, amount) => rm < 16 && amount < 32
         case ByRegister(rm, _, rs) => rm < 16 && rs < 16
    }
  }

  /** The second operand and the shifter's carry out. */
  function Operand2(s: Core, d: DataProcessing): Shifted
    requires d.Valid()
  {
    match d.op2
    case Immediate(imm, rotate) =>
      if rotate == 0 then (imm, s.cpsr.c) else var v := RotateRight(imm, 2 * rotate); (v, Negative(v))
    case ByAmount(rm, shift, amount) => Shifting(shift, s.r[rm], amount, s.cpsr.c, true)
    case ByRegister(rm, shift, rs) => Shifting(shift, ReadLate(s, rm), s.r[rs] % 256, s.cpsr.c, false)
  }

  /** PC reads another word ahead when a register supplies the shift amount. */
  function ReadLate(s: Core, k: nat): Word
    requires k < 16
  {
    if k == PC then Offset(s.r[PC], 4) else s.r[k]
  }

  function Operand1(s: Core, d: DataProcessing): Word
    requires d.Valid()
  {
    if d.op2.ByRegister? then ReadLate(s, d.rn) else s.r[d.rn]
  }

  /** Result and flags; logical operations take carry from the shifter. */
  function Computed(p: Psr, opcode: nat, a: Word, b: Word, shiftCarry: bool): (Word, Psr) {
    match opcode
    case 0x2 => Subs(p, a, b)
    case 0x3 => Subs(p, b, a)
    case 0x4 => Adds(p, a, b)
    case 0x5 => Adcs(p, a, b)
    case 0x6 => Sbcs(p, a, b)
    case 0x7 => Sbcs(p, b, a)
    case 0xA => Subs(p, a, b)
    case 0xB => Adds(p, a, b)
    case _ =>
      var r := match opcode
        case 0x0 => And(a, b)
        case 0x8 => And(a, b)
        case 0x1 => Xor(a, b)
        case 0x9 => Xor(a, b)
        case 0xC => Or(a, b)
        case 0xD => b
        case 0xE => And(a, Not(b))
        case _ => Not(b);
      (r, p.(n := Negative(r), z := r == 0, c := shiftCarry))
  }

  /** TST, TEQ, CMP and CMN keep no result. */
  predicate Discards(opcode: nat) { 0x8 <= opcode <= 0xB }

  /** CMP and CMN set flags whatever the S bit says. */
  predicate SetsFlags(d: DataProcessing) { d.s || d.opcode == 0xA || d.opcode == 0xB }

  function ExecDataProcessing(s: Core, m: Ram, d: DataProcessing): Outcome
    requires d.Valid()
  {
    var (b, shiftCarry) := Operand2(s, d);
    var (result, flags) := Computed(s.cpsr, d.opcode, Operand1(s, d), b, shiftCarry);
    var s1 := if SetsFlags(d) then s.(cpsr := flags) else s;
    if Discards(d.opcode) then Next(s1, m)
    else
      var s2 := s1.(r := s1.r[d.rd := result]);
      if d.rd != PC then Next(s2, m)
      else if d.s then Jump(RestoreCpsr(s2.(irqDelay := 1)), m)
      else Jump(s2, m)
  }

  /** SUBS PC, LR, #4 and MOVS PC, LR: the two exception returns. */
  const RETURN_FROM_IRQ := DataProcessing(0x2, true, LR, PC, Immediate(4, 0))
  const RETURN_FROM_SWI := DataProcessing(0xD, true, 0, PC, ByAmount(LR, LSL, 0))

  // --------------------------------------------------------------------- branches

  /** `offset` is the signed word offset of B and BL. */
  function ExecBranch(s: Core, m: Ram, link: bool, offset: int): Outcome {
    var s1 := if link then s.(r := s.r[LR := Offset(s.r[PC], -4)]) else s;
    Jump(s1.(r := s1.r[PC := Offset(s1.r[PC], 4 * offset)]), m)
  }

  function ExecBx(s: Core, m: Ram, rn: nat): Outcome
    requires rn < 16
  {
    var a := s.r[rn];
    Jump(s.(cpsr := s.cpsr.(t := a % 2 == 1), r := s.r[PC := AlignHalf(a)]), m)
  }

  // --------------------------------------------------------------- block transfers

  /** LDM or STM: before, up, S bit, writeback, load, base, and the list. */
  datatype Block = Block(p: bool, u: bool, s: bool, w: bool, l: bool, rn: nat, list: seq<bool>) {
    predicate Valid() { rn < 16 && |list| == 16 }
  }

  /** How many listed registers there are below register `i`. */
  function Below(list: seq<bool>, i: nat): nat
    requires i <= |list|
  {
    if i == 0 then 0 else Below(list, i - 1) + if list[i - 1] then 1 else 0
  }

  function Count(b: Block): nat
    requires b.Valid()
  {
    Below(b.list, 16)
  }

  /** Lowest address of the block. */
  function Start(base: Word, b: Block): Word
    requires b.Valid()
  {
    if b.u then Offset(base, if b.p then 4 else 0)
    else Offset(base, (if b.p then 0 else 4) - 4 * Count(b))
  }

  function Final(base: Word, b: Block): Word
    requires b.Valid()
  {
    Offset(base, if b.u then 4 * Count(b) else -4 * Count(b))
  }

  /** PC is stored one word further ahead. */
  function Stored(s: Core, i: nat): Word
    requires i < 16
  {
    if i == PC then Offset(s.r[PC], 4) else s.r[i]
  }

  /** Memory after registers `i` and up of the list went to `cur` and up. */
  function StoreFrom(s: Core, m: Ram, list: seq<bool>, cur: Word, i: nat): (r: Ram)
    requires |list| == 16 && i <= 16
    ensures |r| == |m|
    decreases 16 - i
  {
    if i == 16 then m
    else if !list[i] then StoreFrom(s, m, list, cur, i + 1)
    else StoreFrom(s, WriteWord(m, cur, Stored(s, i)), list, Offset(cur, 4), i + 1)
  }

  function LoadFrom(r: Regs, m: Ram, list: seq<bool>, cur: Word, i: nat): Regs
    requires |list| == 16 && i <= 16
    decreases 16 - i
  {
    if i == 16 then r
    else if !list[i] then LoadFrom(r, m, list, cur, i + 1)
    else LoadFrom(r[i := ReadWord(m, cur)], m, list, Offset(cur, 4), i + 1)
  }

  /** The mode whose registers are transferred: with S set, and no PC loaded, the user's. */
  function TransferMode(s: Core, b: Block): Mode
    requires b.Valid()
  {
    if b.s && (!b.l || !b.list[PC]) && s.mode != System then User else s.mode
  }

  /** Registers after the transfer and the writeback, memory after the stores. */
  function Transferred(s: Core, m: Ram, b: Block): (r: (Core, Ram))
    requires b.Valid()
  {
    var base := s.r[b.rn];
    var t := SwitchMode(s, TransferMode(s, b));
    var m1 := if b.l then m else StoreFrom(t, m, b.list, Start(base, b), 0);
    var t1 := if b.l then t.(r := LoadFrom(t.r, m, b.list, Start(base, b), 0)) else t;
    var s1 := SwitchMode(t1, s.mode);
    (if b.w && !(b.l && b.list[b.rn]) then s1.(r := s1.r[b.rn := Final(base, b)]) else s1, m1)
  }

  /** Loading PC jumps, with S set after restoring the status. */
  function ExecBlock(s: Core, m: Ram, b: Block): Outcome
    requires b.Valid()
  {
    if Count(b) == 0 then Next(s, m)
    else
      var (s2, m1) := Transferred(s, m, b);
      if b.l && b.list[PC] then Jump(if b.s then RestoreCpsr(s2) else s2, m1) else Next(s2, m1)
  }
}
