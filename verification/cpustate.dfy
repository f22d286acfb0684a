/// Registers, modes, status registers and the prefetch pipe of the CPU
/// (ARM DDI 0100, sections A2.3 to A2.6), as values.
module CpuState {
  import opened Arithmetic
  import opened Alu

  const SP := 13
  const LR := 14
  const PC := 15

  datatype Mode = User | Fiq | Irq | Supervisor | Abort | Undefined | System {
    function Bits(): bv5 {
      match this
      case User => 0x10
      case Fiq => 0x11
      case Irq => 0x12
      case Supervisor => 0x13
      case Abort => 0x17
      case Undefined => 0x1B
      case System => 0x1F
    }

    /** Index of the mode's register bank; User and System share bank 0. */
    function Bank(): (b: nat)
      ensures b < 6
    {
      match this
      case User => 0
      case System => 0
      case Fiq => 1
      case Irq => 2
      case Supervisor => 3
      case Abort => 4
      case Undefined => 5
    }
  }

  /** Invalid mode numbers collapse to System. */
  function FromBits(b: bv5): Mode {
    if b == 0x10 then User
    else if b == 0x11 then Fiq
    else if b == 0x12 then Irq
    else if b == 0x13 then Supervisor
    else if b == 0x17 then Abort
    else if b == 0x1B then Undefined
    else System
  }

  lemma ModeRoundTrip(m: Mode)
    ensures FromBits(m.Bits()) == m && FromBits(0 | m.Bits()) == m
  {
  }

  type Regs = s: seq<Word> | |s| == 16 witness seq(16, _ => 0)
  type Bank6 = s: seq<Word> | |s| == 6 witness seq(6, _ => 0)
  type High5 = s: seq<Word> | |s| == 5 witness seq(5, _ => 0)
  type Psrs = s: seq<Psr> | |s| == 6
    witness seq(6, _ => Psr(false, false, false, false, false, false, false, 0, 0))

  /** Everything an instruction can see or change. */
  datatype Core = Core(r: Regs, cpsr: Psr, mode: Mode, r13: Bank6, r14: Bank6,
                       fiq: High5, usr: High5, spsr: Psrs, irqDelay: nat)

  /** The two fetched-but-not-executed instructions. */
  datatype Pipe = Pipe(slot0: Word, slot1: Word)

  datatype Cpu = Cpu(core: Core, pipe: Pipe)

  // ----------------------------------------------------------------- addresses, memory

  function Offset(a: Word, d: int): Word { LowWord(a + d) }

  lemma OffsetTwice(a: Word, d: int, e: int)
    ensures Offset(Offset(a, d), e) == Offset(a, d + e)
  {
  }

  function AlignWord(a: Word): Word { a / 4 * 4 }

  function AlignHalf(a: Word): Word { a / 2 * 2 }

  /** One RAM, mirrored through the address space, as words. */
  type Ram = m: seq<Word> | |m| >= 16 witness seq(16, _ => 0)

  function Index(m: Ram, a: Word): (i: nat)
    ensures i < |m|
  {
    a / 4 % |m|
  }

  function ReadWord(m: Ram, a: Word): Word { m[Index(m, a)] }

  function WriteWord(m: Ram, a: Word, v: Word): Ram { m[Index(m, a) := v] }

  /** A Thumb fetch: one half of the word around the address. */
  function ReadHalf(m: Ram, a: Word): Word {
    if a % 4 < 2 then ReadWord(m, a) % 0x1_0000 else ReadWord(m, a) / 0x1_0000
  }

  /** The code at `a` in the given instruction set. */
  function Code(m: Ram, thumb: bool, a: Word): Word { if thumb then ReadHalf(m, a) else ReadWord(m, a) }

  function InsnSize(thumb: bool): int { if thumb then 2 else 4 }

  // -------------------------------------------------------------------- mode switches

  function Spliced(r: Regs, high: High5): Regs { r[..8] + high + r[13..] }

  /** Save r13 and r14 into the old mode's bank, load the new mode's. */
  function SwappedPointers(s: Core, new_: Mode): Core {
    var o, n := s.mode.Bank(), new_.Bank();
    if o == n then s
    else
      var b13, b14 := s.r13[o := s.r[SP]], s.r14[o := s.r[LR]];
      s.(r13 := b13, r14 := b14, r := s.r[SP := b13[n]][LR := b14[n]])
  }

  /** FIQ has its own r8 to r12. */
  function SwappedHigh(s: Core, new_: Mode): Core {
    if (s.mode == Fiq) == (new_ == Fiq) then s
    else if new_ == Fiq then s.(usr := s.r[8..13], r := Spliced(s.r, s.fiq))
    else s.(fiq := s.r[8..13], r := Spliced(s.r, s.usr))
  }

  function SwitchMode(s: Core, new_: Mode): Core {
    if new_ == s.mode then s else SwappedHigh(SwappedPointers(s, new_), new_).(mode := new_)
  }

  // ------------------------------------------------------------------ status registers

  /** The status register as a program reads it, mode bits included. */
  function CpsrBits(s: Core): Psr { s.cpsr.(low := s.cpsr.low | s.mode.Bits()) }

  function SpsrBits(s: Core): Psr { s.spsr[s.mode.Bank()] }

  /** Bits 27 to 24 of the one, the rest of the other. */
  function Topped(v: Rest, cur: Rest): Rest { v / 0x1_0000 * 0x1_0000 + cur % 0x1_0000 }

  /** Take the flag byte and the control byte of `v` as the two masks say. */
  function Masked(cur: Psr, v: Psr, flags: bool, control: bool): Psr {
    var p := if flags then
               cur.(n := v.n, z := v.z, c := v.c, v := v.v, rest := Topped(v.rest, cur.rest))
             else cur;
    if control then p.(i := v.i, f := v.f, t := v.t, low := v.low) else p
  }

  function SetCpsr(s: Core, v: Psr, flags: bool, control: bool): Core {
    var p := Masked(CpsrBits(s), v, flags, control);
    var s1 := if control then SwitchMode(s, FromBits(p.low)) else s;
    s1.(cpsr := p.(low := 0))
  }

  function SetSpsr(s: Core, v: Psr, flags: bool, control: bool): Core {
    var b := s.mode.Bank();
    if b == 0 then s else s.(spsr := s.spsr[b := Masked(s.spsr[b], v, flags, control)])
  }

  /** Exception return: CPSR from the current mode's SPSR, and its mode. */
  function RestoreCpsr(s: Core): Core {
    var p := SpsrBits(s);
    SwitchMode(s, FromBits(p.low)).(cpsr := p.(low := 0))
  }

  // ------------------------------------------------------------------------- the pipe

  /** Refill the pipe after PC was changed. */
  function Flush(s: Core, m: Ram): Cpu {
    var t := s.cpsr.t;
    var pc := if t then AlignHalf(s.r[PC]) else AlignWord(s.r[PC]);
    var size := InsnSize(t);
    Cpu(s.(r := s.r[PC := Offset(pc, 2 * size)]),
        Pipe(Code(m, t, pc), Code(m, t, Offset(pc, size))))
  }

  /** The slots hold the next two instructions of memory. */
  predicate PipeHolds(s: Core, p: Pipe, m: Ram) {
    var t := s.cpsr.t;
    var size := InsnSize(t);
    && s.r[PC] % size == 0
    && p.slot0 == Code(m, t, Offset(s.r[PC], -2 * size))
    && p.slot1 == Code(m, t, Offset(s.r[PC], -size))
  }

  lemma FlushHolds(s: Core, m: Ram)
    ensures var f := Flush(s, m);
            && PipeHolds(f.core, f.pipe, m)
            && f.core == s.(r := s.r[PC := f.core.r[PC]])
  {
    hide Code, Offset, AlignWord, AlignHalf;
    var t := s.cpsr.t;
    var pc := if t then AlignHalf(s.r[PC]) else AlignWord(s.r[PC]);
    Aligned(s.r[PC]);
    WrapBack(pc, InsnSize(t));
  }

  lemma Aligned(a: Word)
    ensures AlignHalf(a) % 2 == 0 && AlignWord(a) % 4 == 0
  {
  }

  lemma WrapBack(pc: Word, size: int)
    requires size == 2 || size == 4
    requires pc % size == 0
    ensures var next := Offset(pc, 2 * size);
            next % size == 0 && Offset(next, -2 * size) == pc && Offset(next, -size) == Offset(pc, size)
  {
    OffsetTwice(pc, 2 * size, -2 * size);
    OffsetTwice(pc, 2 * size, -size);
    OffsetNone(pc);
    StaysAligned(pc, size);
    hide Offset;
  }

  lemma OffsetNone(a: Word)
    ensures Offset(a, 0) == a
  {
  }

  lemma StaysAligned(pc: Word, size: int)
    requires size == 2 || size == 4
    requires pc % size == 0
    ensures Offset(pc, 2 * size) % size == 0
  {
    if size == 2 {
      EvenStays(pc);
    } else {
      FourStays(pc);
    }
    hide Offset;
  }

  lemma EvenStays(pc: Word)
    requires pc % 2 == 0
    ensures Offset(pc, 4) % 2 == 0
  {
    StepsOn(pc, 4);
    Quotient(pc, 2);
    QuotientIs(Offset(pc, 4), 2, if pc + 4 < BASE then pc / 2 + 2 else pc / 2 + 2 - 0x8000_0000, 0);
    hide Offset;
  }

  lemma FourStays(pc: Word)
    requires pc % 4 == 0
    ensures Offset(pc, 8) % 4 == 0
  {
    StepsOn(pc, 8);
    Quotient(pc, 4);
    QuotientIs(Offset(pc, 8), 4, if pc + 8 < BASE then pc / 4 + 2 else pc / 4 + 2 - 0x4000_0000, 0);
    hide Offset;
  }

  lemma StepsOn(pc: Word, d: int)
    requires 0 <= d < BASE
    ensures Offset(pc, d) == if pc + d < BASE then pc + d else pc + d - BASE
  {
    QuotientIs(pc + d, BASE, if pc + d < BASE then 0 else 1, if pc + d < BASE then pc + d else pc + d - BASE);
  }

  // ------------------------------------------------------------------------ exceptions

  /** Enter the IRQ handler instead of the next instruction. */
  function TakeIrq(s: Core, m: Ram): Cpu {
    var ret := if s.cpsr.t then s.r[PC] else Offset(s.r[PC], -4);
    Flush(Enter(s, Irq, ret, 0x18), m)
  }

  function ArmSwi(s: Core, m: Ram): Cpu {
    Flush(Enter(s, Supervisor, Offset(s.r[PC], -4), 0x08), m)
  }

  function Enter(s: Core, mode: Mode, ret: Word, vector: Word): Core {
    var saved := CpsrBits(s);
    var s1 := SwitchMode(s, mode);
    s1.(spsr := s1.spsr[mode.Bank() := saved],
        r := s1.r[LR := ret][PC := vector],
        cpsr := s1.cpsr.(t := false, i := true))
  }
}
