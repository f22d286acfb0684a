/// Exceptions are invisible to the program they interrupt (ARM DDI 0100,
/// section A2.6).
module Interrupts {
  import opened Alu
  import opened CpuState
  import opened Banking
  import opened Arm

  /** What a handler must hand back before it returns: the mode it was entered
      in, with its link register and saved status, and every cell of the flat
      register file outside its own bank except PC. */
  ghost predicate Preserves(entered: Core, h: Core, mode: Mode) {
    && h.mode == mode
    && h.r[LR] == entered.r[LR]
    && h.spsr[mode.Bank()] == entered.spsr[mode.Bank()]
    && forall c :: IsCell(c) && c.reg != PC && !Own(c, mode) ==> At(h, c) == At(entered, c)
  }

  predicate Own(c: Cell, mode: Mode) { 13 <= c.reg <= 14 && c.bank == mode.Bank() }

  /** Entering an exception changes no cell but its own link register and PC. */
  lemma EnterKeepsFile(s: Core, mode: Mode, ret: Word, vector: Word, c: Cell)
    requires IsCell(c) && mode != User && mode != System
    ensures var e := Enter(s, mode, ret, vector);
            && e.mode == mode && e.r[LR] == ret
            && e.spsr == s.spsr[mode.Bank() := CpsrBits(s)]
            && (c.reg != PC && c != Cell(mode.Bank(), LR) ==> At(e, c) == At(s, c))
  {
    SwitchKeepsFile(s, mode, c);
    SwitchKeepsSpsr(s, mode);
    var s1 := SwitchMode(s, mode);
    hide SwitchMode;
    WriteChangesOneCell(s1, LR, ret, c);
    WriteChangesOneCell(s1.(r := s1.r[LR := ret]), PC, vector, c);
    AtIgnoresStatus(s1.(r := s1.r[LR := ret][PC := vector]), Enter(s, mode, ret, vector), c);
  }

  lemma SwitchKeepsSpsr(s: Core, m: Mode)
    ensures SwitchMode(s, m).spsr == s.spsr && SwitchMode(s, m).cpsr == s.cpsr
    ensures SwitchMode(s, m).irqDelay == s.irqDelay
  {
  }

  lemma AtIgnoresStatus(s: Core, s': Core, c: Cell)
    requires IsCell(c) && s' == s.(cpsr := s'.cpsr, spsr := s'.spsr, irqDelay := s'.irqDelay)
    ensures At(s', c) == At(s, c)
  {
  }

  /** The core an exception return jumps to, from any handler that preserved
      what it must: every visible register but PC, the status and the mode. */
  lemma ReturnRestores(s: Core, mode: Mode, ret: Word, vector: Word, h: Core, target: Word, flags: Psr)
    requires mode != User && mode != System && s.mode.Bank() != mode.Bank() && s.cpsr.low == 0
    requires Preserves(Enter(s, mode, ret, vector), h, mode)
    ensures var back := RestoreCpsr(h.(cpsr := flags, r := h.r[PC := target], irqDelay := 1));
            && back.mode == s.mode && back.cpsr == s.cpsr && back.irqDelay == 1
            && back.r == s.r[PC := target]
            && (forall c :: IsCell(c) && c.reg != PC && !Own(c, mode) ==> At(back, c) == At(s, c))
  {
    StatusRestored(s, mode, ret, vector, h, target, flags);
    var e, h1 := Enter(s, mode, ret, vector), h.(cpsr := flags, r := h.r[PC := target], irqDelay := 1);
    hide SwitchMode, Enter, Mode.Bank, At, RestoreCpsr, Own, IsCell, SpsrBits;
    var back := RestoreCpsr(h1);
    forall c | IsCell(c) && c.reg != PC && !Own(c, mode)
      ensures At(back, c) == At(s, c)
    {
      BackInFile(s, h, e, mode, ret, vector, target, flags, c);
    }
    forall k | 0 <= k < 16
      ensures back.r[k] == s.r[PC := target][k]
    {
      BackInRegister(s, h1, back, mode, target, k);
    }
  }

  lemma StatusRestored(s: Core, mode: Mode, ret: Word, vector: Word, h: Core, target: Word, flags: Psr)
    requires mode != User && mode != System && s.cpsr.low == 0
    requires Preserves(Enter(s, mode, ret, vector), h, mode)
    ensures var h1 := h.(cpsr := flags, r := h.r[PC := target], irqDelay := 1);
            var back := RestoreCpsr(h1);
            && back.mode == s.mode && back.cpsr == s.cpsr && back.irqDelay == 1
            && back == SwitchMode(h1, s.mode).(cpsr := back.cpsr)
  {
    EnterKeepsFile(s, mode, ret, vector, Cell(0, 0));
    ModeRoundTrip(s.mode);
    var h1 := h.(cpsr := flags, r := h.r[PC := target], irqDelay := 1);
    SwitchKeepsSpsr(h1, s.mode);
    SwitchSetsMode(h1, s.mode);
    hide SwitchMode, Enter, At, Own, IsCell;
  }

  lemma BackInFile(s: Core, h: Core, e: Core, mode: Mode, ret: Word, vector: Word, target: Word, flags: Psr, c: Cell)
    requires mode != User && mode != System && e == Enter(s, mode, ret, vector)
    requires IsCell(c) && c.reg != PC && !Own(c, mode) && At(h, c) == At(e, c)
    ensures At(RestoreCpsr(h.(cpsr := flags, r := h.r[PC := target], irqDelay := 1)), c) == At(s, c)
  {
    EnterKeepsFile(s, mode, ret, vector, c);
    WriteChangesOneCell(h, PC, target, c);
    var h1 := h.(cpsr := flags, r := h.r[PC := target], irqDelay := 1);
    AtIgnoresStatus(h.(r := h.r[PC := target]), h1, c);
    var p := SpsrBits(h1);
    SwitchKeepsFile(h1, FromBits(p.low), c);
    AtIgnoresStatus(SwitchMode(h1, FromBits(p.low)), RestoreCpsr(h1), c);
  }

  lemma BackInRegister(s: Core, h1: Core, back: Core, mode: Mode, target: Word, k: nat)
    requires k < 16 && s.mode.Bank() != mode.Bank() && back.mode == s.mode && h1.r[PC] == target
    requires back == SwitchMode(h1, s.mode).(cpsr := back.cpsr)
    requires forall c :: IsCell(c) && c.reg != PC && !Own(c, mode) ==> At(back, c) == At(s, c)
    ensures back.r[k] == s.r[PC := target][k]
  {
    if k == PC {
      SwitchLow(h1, s.mode, PC);
    } else {
      var c := Named(s.mode, k);
      assert IsCell(c) && !Own(c, mode);
      VisibleFromFile(back, s, k);
    }
  }

  /** SUBS PC, LR, #4 computes the word before LR and restores the status. */
  lemma SubsPcLr(h: Core, m: Ram)
    ensures RETURN_FROM_IRQ.Valid()
    ensures var flags := Subs(h.cpsr, h.r[LR], 4).1;
            ExecDataProcessing(h, m, RETURN_FROM_IRQ) ==
              Jump(RestoreCpsr(h.(cpsr := flags, r := h.r[PC := Offset(h.r[LR], -4)], irqDelay := 1)), m)
  {
    hide RestoreCpsr;
    assert Subs(h.cpsr, h.r[LR], 4).0 == Offset(h.r[LR], -4);
  }

  lemma MovsPcLr(h: Core, m: Ram)
    ensures RETURN_FROM_SWI.Valid()
    ensures var flags := Computed(h.cpsr, 0xD, h.r[0], h.r[LR], h.cpsr.c).1;
            ExecDataProcessing(h, m, RETURN_FROM_SWI) ==
              Jump(RestoreCpsr(h.(cpsr := flags, r := h.r[PC := h.r[LR]], irqDelay := 1)), m)
  {
    hide RestoreCpsr;
  }

  /** An IRQ taken between two instructions, any handler that preserves what it
      must and leaves the interrupted code alone, and SUBS PC, LR, #4 leave the
      interrupted program as it was: registers, PC, status, mode and pipe. */
  lemma IrqIsTransparent(s: Core, p: Pipe, m: Ram, h: Core, m': Ram)
    requires s.cpsr.low == 0 && s.mode != Irq && PipeHolds(s, p, m)
    requires Preserves(TakeIrq(s, m).core, h, Irq)
    requires PipeHolds(s, p, m')
    ensures RETURN_FROM_IRQ.Valid()
    ensures var o := ExecDataProcessing(h, m', RETURN_FROM_IRQ);
            && o.Jump? && o.ram == m'
            && var back := Flush(o.core, m');
               && back.core.r == s.r && back.core.cpsr == s.cpsr && back.core.mode == s.mode
               && back.pipe == p && back.core.irqDelay == 1
               && forall c :: IsCell(c) && !Own(c, Irq) ==> At(back.core, c) == At(s, c)
  {
    IrqReturns(s, m, h, m');
    var o := ExecDataProcessing(h, m', RETURN_FROM_IRQ);
    hide ExecDataProcessing, TakeIrq, Preserves;
    Resumes(s, p, m', o.core, Offset(s.r[PC], if s.cpsr.t then -4 else -8));
    FlushHolds(o.core, m');
    hide Flush;
    SameFile(s, Flush(o.core, m').core, o.core, Irq);
  }

  /** The core the return instruction jumps with. */
  lemma IrqReturns(s: Core, m: Ram, h: Core, m': Ram)
    requires s.cpsr.low == 0 && s.mode != Irq
    requires Preserves(TakeIrq(s, m).core, h, Irq)
    ensures RETURN_FROM_IRQ.Valid()
    ensures var o := ExecDataProcessing(h, m', RETURN_FROM_IRQ);
            && o.Jump? && o.ram == m'
            && o.core.r == s.r[PC := Offset(s.r[PC], if s.cpsr.t then -4 else -8)]
            && o.core.cpsr == s.cpsr && o.core.mode == s.mode && o.core.irqDelay == 1
            && forall c :: IsCell(c) && c.reg != PC && !Own(c, Irq) ==> At(o.core, c) == At(s, c)
  {
    hide ExecDataProcessing, RestoreCpsr, Subs, Offset, Enter, At, Own;
    var ret := if s.cpsr.t then s.r[PC] else Offset(s.r[PC], -4);
    EnterKeepsFile(s, Irq, ret, 0x18, Cell(0, 0));
    FlushPreserves(Enter(s, Irq, ret, 0x18), m, h, Irq);
    SubsPcLr(h, m');
    var target := Offset(h.r[LR], -4);
    ReturnRestores(s, Irq, ret, 0x18, h, target, Subs(h.cpsr, h.r[LR], 4).1);
    OffsetTwice(s.r[PC], -4, -4);
  }

  /** An IRQ taken in IRQ mode, with a handler that also keeps r13: everything comes back
      but the link register, which the entry overwrote.  So the registers are the interrupted
      ones exactly if it held the return address already; and the saved status of the
      interrupted handler is lost for the current one. */
  lemma NestedIrq(s: Core, p: Pipe, m: Ram, h: Core, m': Ram)
    requires s.cpsr.low == 0 && s.mode == Irq && PipeHolds(s, p, m) && PipeHolds(s, p, m')
    requires Preserves(TakeIrq(s, m).core, h, Irq) && h.r[SP] == s.r[SP]
    ensures RETURN_FROM_IRQ.Valid()
    ensures var o := ExecDataProcessing(h, m', RETURN_FROM_IRQ);
            var back, ret := Flush(o.core, m'), if s.cpsr.t then s.r[PC] else Offset(s.r[PC], -4);
            && o.Jump? && back.pipe == p
            && back.core.r == s.r[LR := ret] && (back.core.r == s.r <==> s.r[LR] == ret)
            && back.core.cpsr == s.cpsr && back.core.mode == Irq
            && back.core.spsr[Irq.Bank()] == CpsrBits(s)
  {
    var ret := if s.cpsr.t then s.r[PC] else Offset(s.r[PC], -4);
    var target, o := Offset(h.r[LR], -4), ExecDataProcessing(h, m', RETURN_FROM_IRQ);
    EnterKeepsFile(s, Irq, ret, 0x18, Cell(0, 0));
    FlushPreserves(Enter(s, Irq, ret, 0x18), m, h, Irq);
    SubsPcLr(h, m');
    NestedBack(s, h, ret, target, Subs(h.cpsr, h.r[LR], 4).1);
    OffsetTwice(s.r[PC], -4, -4);
    hide ExecDataProcessing, TakeIrq, Preserves, Enter, RestoreCpsr, Subs;
    var s' := s.(r := s.r[LR := ret]);
    Resumes(s', p, m', o.core, target);
    FlushHolds(o.core, m');
    hide Flush;
  }

  lemma NestedBack(s: Core, h: Core, ret: Word, target: Word, flags: Psr)
    requires s.cpsr.low == 0 && s.mode == Irq && h.r[SP] == s.r[SP]
    requires Preserves(Enter(s, Irq, ret, 0x18), h, Irq)
    ensures h.r[LR] == ret
    ensures var back := RestoreCpsr(h.(cpsr := flags, r := h.r[PC := target], irqDelay := 1));
            && back.r == s.r[LR := ret][PC := target] && back.cpsr == s.cpsr && back.mode == Irq
            && back.spsr[Irq.Bank()] == CpsrBits(s)
  {
    EnterKeepsFile(s, Irq, ret, 0x18, Cell(0, 0));
    StatusRestored(s, Irq, ret, 0x18, h, target, flags);
    var e, h1 := Enter(s, Irq, ret, 0x18), h.(cpsr := flags, r := h.r[PC := target], irqDelay := 1);
    assert SwitchMode(h1, Irq) == h1;
    hide SwitchMode, Enter, RestoreCpsr;
    forall k | 0 <= k < 16 && k != SP && k != LR && k != PC
      ensures h.r[k] == s.r[k]
    {
      HandlerKeeps(s, h, ret, k);
    }
    assert h.r[PC := target] == s.r[LR := ret][PC := target];
  }

  lemma HandlerKeeps(s: Core, h: Core, ret: Word, k: nat)
    requires s.mode == Irq && Preserves(Enter(s, Irq, ret, 0x18), h, Irq) && k < 13
    ensures h.r[k] == s.r[k]
  {
    EnterKeepsFile(s, Irq, ret, 0x18, Named(Irq, k));
    hide SwitchMode, Enter;
  }

  /** Nothing about entering depends on the pipe refill. */
  lemma FlushPreserves(e: Core, m: Ram, h: Core, mode: Mode)
    requires Preserves(Flush(e, m).core, h, mode) && e.mode == mode
    ensures Preserves(e, h, mode)
  {
    FlushHolds(e, m);
    var f := Flush(e, m).core;
    hide Flush;
    forall c | IsCell(c) && c.reg != PC
      ensures At(f, c) == At(e, c)
    {
      WriteChangesOneCell(e, PC, f.r[PC], c);
    }
  }

  /** Jumping back to the instruction in slot 0 refills the same pipe. */
  lemma Resumes(s: Core, p: Pipe, m: Ram, back: Core, target: Word)
    requires PipeHolds(s, p, m) && back.r == s.r[PC := target] && back.cpsr == s.cpsr
    requires target == Offset(s.r[PC], if s.cpsr.t then -4 else -8)
    ensures Flush(back, m).core.r == s.r && Flush(back, m).pipe == p
  {
    TwoBack(s.r[PC], InsnSize(s.cpsr.t));
    hide Code, Offset;
  }

  lemma TwoBack(pc: Word, size: int)
    requires (size == 2 || size == 4) && pc % size == 0
    ensures var a := Offset(pc, -2 * size);
            a % size == 0 && Offset(a, 2 * size) == pc && Offset(a, size) == Offset(pc, -size)
  {
    if size == 2 {
    } else {
      assert size == 4;
    }
  }

  lemma SameFile(s: Core, back: Core, o: Core, mode: Mode)
    requires back == o.(r := s.r) && o.r == s.r[PC := o.r[PC]] && o.mode == s.mode
    requires forall c :: IsCell(c) && c.reg != PC && !Own(c, mode) ==> At(o, c) == At(s, c)
    ensures forall c :: IsCell(c) && !Own(c, mode) ==> At(back, c) == At(s, c)
  {
    forall c | IsCell(c) && !Own(c, mode)
      ensures At(back, c) == At(s, c)
    {
      assert back.r == o.r[PC := s.r[PC]];
      WriteChangesOneCell(o, PC, s.r[PC], c);
    }
  }

  /** SWI from ARM code and MOVS PC, LR: the program resumes after the SWI with
      its registers, status and mode; only the supervisor bank is not its own. */
  lemma SwiReturns(s: Core, m: Ram, h: Core, m': Ram)
    requires s.cpsr.low == 0 && s.mode != Supervisor && !s.cpsr.t && s.r[PC] % 4 == 0
    requires Preserves(ArmSwi(s, m).core, h, Supervisor)
    ensures RETURN_FROM_SWI.Valid()
    ensures var o := ExecDataProcessing(h, m', RETURN_FROM_SWI);
            && o.Jump?
            && var back := Flush(o.core, m');
               && back.core.r == s.r[PC := Offset(s.r[PC], 4)] && back.core.cpsr == s.cpsr
               && back.core.mode == s.mode && PipeHolds(back.core, back.pipe, m')
  {
    SwiJumpsBack(s, m, h, m');
    var o := ExecDataProcessing(h, m', RETURN_FROM_SWI);
    hide ExecDataProcessing, ArmSwi, Preserves;
    FlushHolds(o.core, m');
    NextInstruction(s.r[PC]);
  }

  /** The core the return instruction jumps with. */
  lemma SwiJumpsBack(s: Core, m: Ram, h: Core, m': Ram)
    requires s.cpsr.low == 0 && s.mode != Supervisor && !s.cpsr.t
    requires Preserves(ArmSwi(s, m).core, h, Supervisor)
    ensures RETURN_FROM_SWI.Valid()
    ensures var o := ExecDataProcessing(h, m', RETURN_FROM_SWI);
            && o.Jump? && o.core.r == s.r[PC := Offset(s.r[PC], -4)] && o.core.cpsr == s.cpsr && o.core.mode == s.mode
  {
    var ret := Offset(s.r[PC], -4);
    EnterKeepsFile(s, Supervisor, ret, 0x08, Cell(0, 0));
    FlushPreserves(Enter(s, Supervisor, ret, 0x08), m, h, Supervisor);
    MovsPcLr(h, m');
    hide ExecDataProcessing, RestoreCpsr, Enter, Computed;
    ReturnRestores(s, Supervisor, ret, 0x08, h, ret, Computed(h.cpsr, 0xD, h.r[0], h.r[LR], h.cpsr.c).1);
  }

  lemma NextInstruction(pc: Word)
    requires pc % 4 == 0
    ensures var a := Offset(pc, -4); AlignWord(a) == a && Offset(a, 8) == Offset(pc, 4)
  {
  }
}
