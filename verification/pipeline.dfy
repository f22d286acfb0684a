/// The two-slot prefetch pipe refines a machine that fetches each instruction
/// from memory at the moment it executes it.
module Pipeline {
  import opened Alu
  import opened CpuState
  import opened Arm

  /** Executing one instruction: it sees the core and memory, never the pipe. */
  type Exec = (Core, Ram, Word) -> Outcome

  /** What is outside the CPU at a step: IE & IF nonzero, IME, and whether the instruction
      writes the halt register. */
  datatype Lines = Lines(pending: bool, ime: bool, halts: bool)

  datatype Machine = Machine(cpu: Cpu, ram: Ram, halted: bool)

  predicate TakesIrq(s: Core, l: Lines) { s.irqDelay == 0 && l.pending && l.ime && !s.cpsr.i }

  function AgeDelay(s: Core): Core { if s.irqDelay > 0 then s.(irqDelay := s.irqDelay - 1) else s }

  /** ARM instructions whose condition fails do nothing. */
  function Execute(exec: Exec, s: Core, m: Ram, op: Word): Outcome {
    if s.cpsr.t || CheckCond(s.cpsr, op / 0x1000_0000) then exec(s, m, op) else Next(s, m)
  }

  /** One step of the CPU. */
  function Step(exec: Exec, x: Machine, l: Lines): Machine {
    if x.halted && !l.pending then x
    else if TakesIrq(x.cpu.core, l) then Machine(TakeIrq(x.cpu.core, x.ram), x.ram, false)
    else
      var s := AgeDelay(x.cpu.core);
      var t := s.cpsr.t;
      match Execute(exec, s, x.ram, x.cpu.pipe.slot0)
      case Jump(s', m') => Machine(Flush(s', m'), m', l.halts)
      case Next(s', m') =>
        Machine(Cpu(s'.(r := s'.r[PC := Offset(s'.r[PC], InsnSize(t))]),
                    Pipe(x.cpu.pipe.slot1, Code(m', t, s'.r[PC]))), m', l.halts)
  }

  // --------------------------------------------------------------- no pipe at all

  datatype Plain = Plain(core: Core, ram: Ram, halted: bool)

  /** The instruction the core stands at: PC reads two instructions ahead. */
  function Current(s: Core, m: Ram): Word {
    Code(m, s.cpsr.t, Offset(s.r[PC], -2 * InsnSize(s.cpsr.t)))
  }

  /** A jump just sets PC two instructions past the aligned target. */
  function Land(s: Core): Core {
    var pc := if s.cpsr.t then AlignHalf(s.r[PC]) else AlignWord(s.r[PC]);
    s.(r := s.r[PC := Offset(pc, 2 * InsnSize(s.cpsr.t))])
  }

  function PlainStep(exec: Exec, x: Plain, l: Lines): Plain {
    if x.halted && !l.pending then x
    else if TakesIrq(x.core, l) then
      var ret := if x.core.cpsr.t then x.core.r[PC] else Offset(x.core.r[PC], -4);
      Plain(Land(Enter(x.core, Irq, ret, 0x18)), x.ram, false)
    else
      var s := AgeDelay(x.core);
      match Execute(exec, s, x.ram, Current(s, x.ram))
      case Jump(s', m') => Plain(Land(s'), m', l.halts)
      case Next(s', m') => Plain(s'.(r := s'.r[PC := Offset(s'.r[PC], InsnSize(s.cpsr.t))]), m', l.halts)
  }

  // ------------------------------------------------------------------- refinement

  /** The outcome of the instruction a core stands at. */
  function Effect(exec: Exec, x: Plain): Outcome { Execute(exec, AgeDelay(x.core), x.ram, Current(x.core, x.ram)) }

  predicate Executes(x: Plain, l: Lines) { !(x.halted && !l.pending) && !TakesIrq(x.core, l) }

  /** The instruction at hand changes PC and the T bit through a flush or not at all. */
  predicate InLine(exec: Exec, x: Plain) {
    var o := Effect(exec, x);
    o.Next? ==> o.core.r[PC] == x.core.r[PC] && o.core.cpsr.t == x.core.cpsr.t
  }

  /** It does not store over the instruction already in slot 1. */
  predicate Misses(exec: Exec, x: Plain) {
    var o := Effect(exec, x);
    var t, a := x.core.cpsr.t, Offset(x.core.r[PC], -InsnSize(x.core.cpsr.t));
    o.Next? ==> Code(o.ram, t, a) == Code(x.ram, t, a)
  }

  predicate Undisturbed(exec: Exec, x: Plain, l: Lines) {
    Executes(x, l) ==> InLine(exec, x) && Misses(exec, x)
  }

  /** Where PC or T was changed without a flush: memory at the new place happens to be what
      was prefetched at the old one. */
  predicate Coincides(exec: Exec, x: Plain, l: Lines) {
    var o := Effect(exec, x);
    && Executes(x, l) && o.Next? && !InLine(exec, x)
    && var size, t', size' := InsnSize(x.core.cpsr.t), o.core.cpsr.t, InsnSize(o.core.cpsr.t);
       var pc' := Offset(o.core.r[PC], size);
       && pc' % size' == 0
       && Code(o.ram, t', Offset(pc', -2 * size')) == Code(x.ram, x.core.cpsr.t, Offset(x.core.r[PC], -size))
       && Code(o.ram, t', Offset(pc', -size')) == Code(o.ram, x.core.cpsr.t, o.core.r[PC])
  }

  function Unpiped(x: Machine): Plain { Plain(x.cpu.core, x.ram, x.halted) }

  predicate Holds(x: Machine) { PipeHolds(x.cpu.core, x.cpu.pipe, x.ram) }

  /** While the slots hold memory, a step does what the plain machine does, whatever the
      instruction; and they hold memory after it exactly when it changed PC and T through a
      flush only and missed slot 1, or changed them otherwise to a place with the same code. */
  lemma StepRefines(exec: Exec, x: Machine, l: Lines)
    requires Holds(x)
    ensures Unpiped(Step(exec, x, l)) == PlainStep(exec, Unpiped(x), l)
    ensures Holds(Step(exec, x, l)) <==> Undisturbed(exec, Unpiped(x), l) || Coincides(exec, Unpiped(x), l)
    ensures Executes(Unpiped(x), l) && InLine(exec, Unpiped(x))
            ==> (Holds(Step(exec, x, l)) <==> Misses(exec, Unpiped(x)))
  {
    var c := x.cpu.core;
    if x.halted && !l.pending {
    } else if TakesIrq(c, l) {
      var ret := if c.cpsr.t then c.r[PC] else Offset(c.r[PC], -4);
      JumpRefines(Enter(c, Irq, ret, 0x18), x.ram);
      hide Flush, Land, Enter, PipeHolds;
    } else {
      StepExecutes(exec, x, l);
      var o := Effect(exec, Unpiped(x));
      if o.Jump? {
        JumpRefines(o.core, o.ram);
        hide Flush, Land, Effect, PipeHolds, Step, PlainStep;
      } else if InLine(exec, Unpiped(x)) {
        NextRefines(c, x.cpu.pipe, x.ram, o.core, o.ram);
        hide Effect, PipeHolds, Code, Step, PlainStep;
      } else {
        StrayHolds(c, x.cpu.pipe, x.ram, o.core, o.ram);
        hide Effect, PipeHolds, Code, Step, PlainStep;
      }
    }
  }

  /** Both machines execute the same instruction. */
  lemma StepExecutes(exec: Exec, x: Machine, l: Lines)
    requires Holds(x) && Executes(Unpiped(x), l)
    ensures var o := Effect(exec, Unpiped(x));
            var size := InsnSize(x.cpu.core.cpsr.t);
            && Step(exec, x, l) == (match o
                 case Jump(s', m') => Machine(Flush(s', m'), m', l.halts)
                 case Next(s', m') =>
                   Machine(Cpu(s'.(r := s'.r[PC := Offset(s'.r[PC], size)]),
                               Pipe(x.cpu.pipe.slot1, Code(m', x.cpu.core.cpsr.t, s'.r[PC]))), m', l.halts))
            && PlainStep(exec, Unpiped(x), l) == (match o
                 case Jump(s', m') => Plain(Land(s'), m', l.halts)
                 case Next(s', m') => Plain(s'.(r := s'.r[PC := Offset(s'.r[PC], size)]), m', l.halts))
  {
    var s := AgeDelay(x.cpu.core);
    assert x.cpu.pipe.slot0 == Current(s, x.ram) == Current(x.cpu.core, x.ram);
    hide Execute, Code, Flush, Land;
  }

  lemma StrayHolds(c: Core, p: Pipe, m: Ram, s': Core, m': Ram)
    requires PipeHolds(c, p, m)
    ensures var size, t', size' := InsnSize(c.cpsr.t), s'.cpsr.t, InsnSize(s'.cpsr.t);
            var pc' := Offset(s'.r[PC], size);
            PipeHolds(s'.(r := s'.r[PC := pc']), Pipe(p.slot1, Code(m', c.cpsr.t, s'.r[PC])), m') <==>
              && pc' % size' == 0
              && Code(m', t', Offset(pc', -2 * size')) == Code(m, c.cpsr.t, Offset(c.r[PC], -size))
              && Code(m', t', Offset(pc', -size')) == Code(m', c.cpsr.t, s'.r[PC])
  {
    hide Code, Offset;
  }

  lemma JumpRefines(s: Core, m: Ram)
    ensures Flush(s, m).core == Land(s) && PipeHolds(Flush(s, m).core, Flush(s, m).pipe, m)
  {
    FlushHolds(s, m);
    hide Code, Offset, PipeHolds;
  }

  lemma NextRefines(c: Core, p: Pipe, m: Ram, s': Core, m': Ram)
    requires PipeHolds(c, p, m) && s'.r[PC] == c.r[PC] && s'.cpsr.t == c.cpsr.t
    ensures var t := c.cpsr.t;
            var size, a := InsnSize(t), Offset(c.r[PC], -InsnSize(t));
            PipeHolds(s'.(r := s'.r[PC := Offset(s'.r[PC], size)]), Pipe(p.slot1, Code(m', t, s'.r[PC])), m')
            <==> Code(m', t, a) == Code(m, t, a)
  {
    OneOn(c.r[PC], InsnSize(c.cpsr.t));
    hide Code, Offset;
  }

  lemma OneOn(pc: Word, size: int)
    requires (size == 2 || size == 4) && pc % size == 0
    ensures var next := Offset(pc, size);
            next % size == 0 && Offset(next, -2 * size) == Offset(pc, -size) && Offset(next, -size) == pc
  {
    if size == 2 {
      OneHalfwordOn(pc);
    } else {
      OneWordOn(pc);
    }
  }

  lemma OneHalfwordOn(pc: Word)
    requires pc % 2 == 0
    ensures var next := Offset(pc, 2); next % 2 == 0 && Offset(next, -4) == Offset(pc, -2) && Offset(next, -2) == pc
  {
  }

  lemma OneWordOn(pc: Word)
    requires pc % 4 == 0
    ensures var next := Offset(pc, 4); next % 4 == 0 && Offset(next, -8) == Offset(pc, -4) && Offset(next, -4) == pc
  {
  }

  // -------------------------------------------------------------------- whole runs

  function Run(exec: Exec, x: Machine, ls: seq<Lines>): Machine
    decreases ls
  {
    if ls == [] then x else Run(exec, Step(exec, x, ls[0]), ls[1..])
  }

  function PlainRun(exec: Exec, x: Plain, ls: seq<Lines>): Plain
    decreases ls
  {
    if ls == [] then x else PlainRun(exec, PlainStep(exec, x, ls[0]), ls[1..])
  }

  predicate RunUndisturbed(exec: Exec, x: Plain, ls: seq<Lines>)
    decreases ls
  {
    ls == [] || (Undisturbed(exec, x, ls[0]) && RunUndisturbed(exec, PlainStep(exec, x, ls[0]), ls[1..]))
  }

  /** Over every run whose steps are undisturbed, the piped CPU and the
      plain machine go through the same states, and the slots hold memory at
      the end; prefixes of such runs are such runs, so at every step boundary. */
  lemma {:induction false} RunRefines(exec: Exec, x: Machine, ls: seq<Lines>)
    requires Holds(x) && RunUndisturbed(exec, Unpiped(x), ls)
    ensures Unpiped(Run(exec, x, ls)) == PlainRun(exec, Unpiped(x), ls)
    ensures Holds(Run(exec, x, ls))
    decreases ls
  {
    if ls != [] {
      StepRefines(exec, x, ls[0]);
      hide Step, PlainStep, Undisturbed, Coincides, Holds, Unpiped;
      RunRefines(exec, Step(exec, x, ls[0]), ls[1..]);
    }
  }

  lemma {:induction false} PrefixUndisturbed(exec: Exec, x: Plain, ls: seq<Lines>, n: nat)
    requires n <= |ls| && RunUndisturbed(exec, x, ls)
    ensures RunUndisturbed(exec, x, ls[..n])
    decreases ls
  {
    hide Undisturbed, PlainStep;
    if n > 0 {
      assert ls[..n][1..] == ls[1..][..n - 1];
      PrefixUndisturbed(exec, PlainStep(exec, x, ls[0]), ls[1..], n - 1);
    }
  }

  /** At every boundary inside such a run the slots hold the next two instructions. */
  lemma EveryBoundary(exec: Exec, x: Machine, ls: seq<Lines>, n: nat)
    requires Holds(x) && RunUndisturbed(exec, Unpiped(x), ls) && n <= |ls|
    ensures Holds(Run(exec, x, ls[..n]))
  {
    PrefixUndisturbed(exec, Unpiped(x), ls, n);
    RunRefines(exec, x, ls[..n]);
  }
}
