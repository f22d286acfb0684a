/// The CPU itself behind its prefetch pipe: the pipeline theorems for the ARM decoder and
/// executor, with a condition on the instruction words a run meets.
module ArmRuns {
  import opened Alu
  import opened CpuState
  import opened Arm
  import opened Encoding
  import opened Dispatch
  import opened Pipeline

  /** ARM words are executed as decoded; Thumb halfwords by any function. */
  function CpuExec(thumb: Exec): Exec {
    (s: Core, m: Ram, op: Word) => if s.cpsr.t then thumb(s, m, op) else ExecArm(s, m, op)
  }

  /** The core as its instruction sees it, and that instruction. */
  function Standing(x: Pipeline.Plain): (r: (Core, Instruction))
    ensures InBounds(r.1)
  {
    DecodedInBounds(Current(x.core, x.ram));
    (AgeDelay(x.core), Decode(Current(x.core, x.ram)).1)
  }

  /** An ARM instruction is at hand whose condition holds. */
  predicate Acts(x: Pipeline.Plain) { !x.core.cpsr.t && CheckCond(x.core.cpsr, Current(x.core, x.ram) / 0x1000_0000) }

  /** It writes PC or another T bit without refilling the pipe. */
  predicate Strays(x: Pipeline.Plain) { Acts(x) && (StraysPc(Standing(x).1) || StraysT(Standing(x).0, Standing(x).1)) }

  /** In ARM state an instruction that does not stray is in line, and one that writes T or
      ends a block transfer with a new PC is not. */
  lemma ArmInLine(thumb: Exec, x: Pipeline.Plain)
    requires !x.core.cpsr.t
    ensures !Strays(x) ==> InLine(CpuExec(thumb), x)
    ensures var (s, i) := Standing(x);
            && (Acts(x) && (WritesBackPc(i) || StraysT(s, i)) && ExecInstruction(s, x.ram, i).Next? ==>
                  !InLine(CpuExec(thumb), x))
  {
    hide ExecInstruction, StraysPc, StraysT, WritesBackPc, InBounds, CheckCond, Decode, Code, Offset;
    var (s, i) := Standing(x);
    ArmEffect(thumb, x);
    if Acts(x) && ExecInstruction(s, x.ram, i).Next? {
      StaysInLine(s, x.ram, i);
    }
  }

  lemma ArmEffect(thumb: Exec, x: Pipeline.Plain)
    requires !x.core.cpsr.t
    ensures var (s, i) := Standing(x);
            Effect(CpuExec(thumb), x) == if Acts(x) then ExecInstruction(s, x.ram, i) else Next(s, x.ram)
  {
    hide ExecInstruction, InBounds, CheckCond, Decode, Current;
    var s, op := AgeDelay(x.core), Current(x.core, x.ram);
    assert CpuExec(thumb)(s, x.ram, op) == ExecArm(s, x.ram, op);
  }

  /** What a program has to keep to: in ARM state no straying instruction, in Thumb state
      PC and T changed through flushes only, and no store over the prefetched word. */
  predicate Careful(thumb: Exec, x: Pipeline.Plain, l: Lines) {
    Executes(x, l) ==>
      && (if x.core.cpsr.t then InLine(thumb, x) else !Strays(x))
      && Misses(CpuExec(thumb), x)
  }

  predicate RunCareful(thumb: Exec, x: Pipeline.Plain, ls: seq<Lines>)
    decreases ls
  {
    ls == [] || (Careful(thumb, x, ls[0]) && RunCareful(thumb, PlainStep(CpuExec(thumb), x, ls[0]), ls[1..]))
  }

  lemma CarefulIsUndisturbed(thumb: Exec, x: Pipeline.Plain, l: Lines)
    requires Careful(thumb, x, l)
    ensures Undisturbed(CpuExec(thumb), x, l)
  {
    hide Misses, Strays, Current, ExecArm;
    if Executes(x, l) && !x.core.cpsr.t { ArmInLine(thumb, x); }
  }

  lemma {:induction false} RunCarefulIsUndisturbed(thumb: Exec, x: Pipeline.Plain, ls: seq<Lines>)
    requires RunCareful(thumb, x, ls)
    ensures RunUndisturbed(CpuExec(thumb), x, ls)
    decreases ls
  {
    hide Careful, Undisturbed, PlainStep, CpuExec;
    if ls != [] {
      CarefulIsUndisturbed(thumb, x, ls[0]);
      RunCarefulIsUndisturbed(thumb, PlainStep(CpuExec(thumb), x, ls[0]), ls[1..]);
    }
  }

  /** Any careful run of the CPU, interrupts and halting included, goes through the states of
      the machine without a pipe, and the slots hold the code ahead at its end. */
  lemma ArmRunRefines(thumb: Exec, x: Pipeline.Machine, ls: seq<Lines>)
    requires Holds(x) && RunCareful(thumb, Unpiped(x), ls)
    ensures Unpiped(Run(CpuExec(thumb), x, ls)) == PlainRun(CpuExec(thumb), Unpiped(x), ls)
    ensures Holds(Run(CpuExec(thumb), x, ls))
  {
    hide Holds, Unpiped, Run, PlainRun, CpuExec, RunCareful;
    RunCarefulIsUndisturbed(thumb, Unpiped(x), ls);
    RunRefines(CpuExec(thumb), x, ls);
  }

  // ------------------------------------------------------------ an instruction that strays

  /** STMIA PC!, {R0}, as the assembler emits it. */
  const STMIA_PC: Word := 0xE8AF_0001

  function OnlyR0(): seq<bool> { [true] + Bits(0, 15) }

  const STMIA_BLOCK := Block(false, true, false, true, false, PC, OnlyR0())

  lemma StmiaDecodes()
    ensures Decode(STMIA_PC) == (14, BlockTransfer(STMIA_BLOCK))
  {
    hide *;
    MultipleDecodes(STMIA(true), 14, 15, 1);
    StmiaWord();
    StmiaMeaning();
  }

  lemma StmiaWord()
    ensures Word4(14, STMIA(true).Base(), 15, 0, 1) == STMIA_PC
  {
  }

  lemma StmiaMeaning()
    ensures STMIA(true).Meaning(15, ListBits(1)) == STMIA_BLOCK
  {
    LowBit(1, 16);
    hide Bits;
  }

  lemma LowBit(v: nat, n: nat)
    requires v == 1 && n > 0
    ensures Bits(v, n) == [true] + Bits(0, n - 1)
  {
  }

  lemma {:induction false} NoBits(n: nat, i: nat)
    requires i < n
    ensures !Bits(0, n)[i]
  {
    if i > 0 { NoBits(n - 1, i - 1); }
  }

  lemma {:induction false} OnlyOne(s: Core, m: Ram, list: seq<bool>, cur: Word, i: nat)
    requires 1 <= i <= 16 && |list| == 16 && list[0] && forall k :: 1 <= k < 16 ==> !list[k]
    ensures Below(list, i) == 1
    ensures StoreFrom(s, m, list, cur, 17 - i) == m
  {
    if i > 1 { OnlyOne(s, m, list, cur, i - 1); }
  }

  /** It stores R0 where PC points and moves PC one word on. */
  lemma StmiaPc(s: Core, m: Ram, list: seq<bool>)
    requires |list| == 16 && list[0] && forall k :: 1 <= k < 16 ==> !list[k]
    ensures ExecBlock(s, m, Block(false, true, false, true, false, PC, list))
         == Next(s.(r := s.r[PC := Offset(s.r[PC], 4)]), WriteWord(m, s.r[PC], s.r[0]))
  {
    var b := Block(false, true, false, true, false, PC, list);
    OnlyOne(s, m, list, 0, 16);
    OnlyOne(s, WriteWord(m, s.r[PC], s.r[0]), list, Offset(s.r[PC], 4), 16);
    assert Start(s.r[PC], b) == s.r[PC];
    assert StoreFrom(s, m, list, s.r[PC], 0) == WriteWord(m, s.r[PC], s.r[0]);
    hide WriteWord, StoreFrom, Below;
  }

  /** After it the slots are two words behind PC and hold the code there only if R0 is the
      word that had been prefetched. */
  lemma StmiaStrays(thumb: Exec, x: Pipeline.Machine, l: Lines)
    requires Holds(x) && Executes(Unpiped(x), l) && !x.cpu.core.cpsr.t && x.cpu.pipe.slot0 == STMIA_PC
    ensures !InLine(CpuExec(thumb), Unpiped(x))
    ensures Holds(Step(CpuExec(thumb), x, l)) <==> x.cpu.core.r[0] == x.cpu.pipe.slot1
  {
    var y := Unpiped(x);
    StmiaEffect(thumb, y);
    StepRefines(CpuExec(thumb), x, l);
    StmiaCoincides(x.cpu.core.r[PC], x.ram, x.cpu.core.r[0]);
    hide Offset, ReadWord, WriteWord, CpuExec, Step, PlainStep, Effect, TakesIrq;
  }

  lemma StmiaEffect(thumb: Exec, x: Pipeline.Plain)
    requires !x.core.cpsr.t && Current(x.core, x.ram) == STMIA_PC
    ensures var s := AgeDelay(x.core);
            Effect(CpuExec(thumb), x) == Next(s.(r := s.r[PC := Offset(s.r[PC], 4)]), WriteWord(x.ram, s.r[PC], s.r[0]))
  {
    hide *;
    StmiaDecodes();
    StmiaStands(x);
    OnlyR0Listed();
    StmiaPc(AgeDelay(x.core), x.ram, OnlyR0());
    ArmEffect(thumb, x);
  }

  lemma StmiaStands(x: Pipeline.Plain)
    requires !x.core.cpsr.t && Current(x.core, x.ram) == STMIA_PC
            && Decode(STMIA_PC) == (14, BlockTransfer(STMIA_BLOCK))
    ensures Acts(x)
    ensures var (s, i) := Standing(x);
            s == AgeDelay(x.core) && ExecInstruction(s, x.ram, i)
              == ExecBlock(s, x.ram, Block(false, true, false, true, false, PC, OnlyR0()))
  {
    hide Decode, Current, OnlyR0, ExecBlock, InBounds;
  }

  lemma OnlyR0Listed()
    ensures |OnlyR0()| == 16 && OnlyR0()[0] && forall k :: 1 <= k < 16 ==> !OnlyR0()[k]
  {
    hide Bits;
    forall k | 1 <= k < 16 ensures !OnlyR0()[k] { NoBits(15, k - 1); }
  }

  lemma StmiaCoincides(pc: Word, m: Ram, r0: Word)
    requires pc % 4 == 0
    ensures var next := Offset(Offset(pc, 4), 4);
            Offset(pc, 4) != pc && next % 4 == 0 && Offset(next, -8) == pc && Offset(next, -4) == Offset(pc, 4)
    ensures ReadWord(WriteWord(m, pc, r0), pc) == r0
  {
    assert Offset(pc, 4) != pc;
    OneWordOn(pc);
    OneWordOn(Offset(pc, 4));
    hide Offset, Index;
  }
}
