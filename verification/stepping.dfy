/// Single steps of the CPU in ARM state, and runs of them, with memory and pipe kept in line.
module Stepping {
  import opened Arithmetic
  import opened Alu
  import opened CpuState
  import opened Arm
  import opened Encoding
  import opened Dispatch
  import opened ArmRuns
  import Pipeline

  // ------------------------------------------------------------------ addresses

  /** The address of word `k` of a routine. */
  function Address(base: Word, k: int): Word { Offset(base, 4 * k) }

  lemma OffsetAligned(a: Word, t: int)
    requires a % 4 == 0
    ensures AlignWord(Offset(a, 4 * t)) == Offset(a, 4 * t)
  {
    Quotient(a, 4);
    Quotient(a + 4 * t, BASE);
    WholeWords(Offset(a, 4 * t), a / 4 + t - (a + 4 * t) / BASE * 0x4000_0000);
  }

  lemma WholeWords(r: int, q: int)
    requires r == q * 4
    ensures r % 4 == 0 && r / 4 * 4 == r
  {
  }

  // ------------------------------------------------------------------ one step

  /** Nothing from outside. */
  const QUIET := Pipeline.Lines(false, false, false)

  function Quiet(n: nat): seq<Pipeline.Lines> { seq(n, _ => QUIET) }

  function Aged(delay: nat, n: nat): nat { if delay > n then delay - n else 0 }

  lemma Aging(s: Core)
    ensures Pipeline.AgeDelay(s) == s.(irqDelay := Aged(s.irqDelay, 1))
  {
  }

  /** No interrupt is taken, and the instruction does not halt the CPU. */
  predicate Calm(x: Pipeline.Plain, l: Pipeline.Lines) { !x.halted && !l.halts && !Pipeline.TakesIrq(x.core, l) }

  /** A calm step that does not jump, or jumps. */
  lemma StepNext(exec: Pipeline.Exec, x: Pipeline.Plain, l: Pipeline.Lines)
    requires Calm(x, l) && !x.core.cpsr.t
    ensures var o := Pipeline.Effect(exec, x);
            Pipeline.PlainStep(exec, x, l) ==
              Pipeline.Plain(if o.Jump? then Pipeline.Land(o.core)
                             else o.core.(r := o.core.r[PC := Offset(o.core.r[PC], 4)]), o.ram, false)
  {
    hide Pipeline.Execute, CpuState.Code, Pipeline.Land;
  }

  /** The word in slot 1 stands after the step as before it. */
  lemma CarefulIf(thumb: Pipeline.Exec, x: Pipeline.Plain, l: Pipeline.Lines)
    requires !x.core.cpsr.t && !Strays(x)
    requires var o := Pipeline.Effect(CpuExec(thumb), x);
             o.Next? ==> ReadWord(o.ram, Offset(x.core.r[PC], -4)) == ReadWord(x.ram, Offset(x.core.r[PC], -4))
    ensures Careful(thumb, x, l)
  {
    hide ReadWord, Strays, Pipeline.Effect;
  }

  lemma QuietIsCalm(x: Pipeline.Plain)
    requires !x.halted
    ensures Calm(x, QUIET)
  {
  }

  /** The CPU stands before what is meant in line `k`. */
  lemma StandsAt(x: Pipeline.Plain, base: Word, k: int, cond: Nibble, i: Instruction)
    requires !x.core.cpsr.t && x.core.r[PC] == Offset(base, 4 * k + 8)
    requires Decode(ReadWord(x.ram, Address(base, k))) == (cond, i)
    ensures InBounds(i) && Standing(x) == (Pipeline.AgeDelay(x.core), i) && Acts(x) == CheckCond(x.core.cpsr, cond)
  {
    var word := ReadWord(x.ram, Address(base, k));
    OffsetTwice(base, 4 * k + 8, -8);
    Fetched(x);
    DecodedInBounds(word);
    DecodedCond(word);
    hide Offset, ReadWord, Decode, CheckCond, InBounds, Pipeline.Current, Pipeline.AgeDelay;
  }

  lemma Fetched(x: Pipeline.Plain)
    requires !x.core.cpsr.t
    ensures Pipeline.Current(x.core, x.ram) == ReadWord(x.ram, Offset(x.core.r[PC], -8))
  {
  }

  lemma DecodedCond(word: Word)
    ensures Decode(word).0 == word / 0x1000_0000
  {
    hide DecodeFields;
  }

  /** The effect of an instruction that does not stray, under no condition. */
  lemma InstructionEffect(thumb: Pipeline.Exec, x: Pipeline.Plain, base: Word, k: int, i: Instruction)
    requires !x.core.cpsr.t && x.core.r[PC] == Offset(base, 4 * k + 8)
    requires Decode(ReadWord(x.ram, Address(base, k))) == (ALWAYS, i) && !StraysPc(i) && !i.Msr?
    ensures InBounds(i)
    ensures Pipeline.Effect(CpuExec(thumb), x) == ExecInstruction(Pipeline.AgeDelay(x.core), x.ram, i) && !Strays(x)
  {
    StandsAt(x, base, k, ALWAYS, i);
    AlwaysHolds(x.core.cpsr);
    ArmEffect(thumb, x);
    hide CpuExec, Pipeline.Effect, ExecInstruction, Decode, ReadWord, Address, Offset, StraysPc, Acts, Standing,
         CheckCond;
  }

  lemma AlwaysHolds(p: Psr)
    ensures CheckCond(p, ALWAYS)
  {
  }

  lemma LocalStays(x: Pipeline.Plain)
    requires Standing(x).1.Data? || Standing(x).1.Branch?
            || (Standing(x).1.BlockTransfer? && Standing(x).1.block.rn != PC)
    ensures !Strays(x)
  {
    hide Standing, Acts;
  }

  lemma DataExecutes(s: Core, m: Ram, d: DataProcessing)
    requires d.Valid()
    ensures InBounds(Data(d)) && ExecInstruction(s, m, Data(d)) == ExecDataProcessing(s, m, d)
  {
    hide ExecDataProcessing;
  }

  lemma BranchExecutes(s: Core, m: Ram, words: int)
    ensures ExecInstruction(s, m, Branch(false, words)) == ExecBranch(s, m, false, words)
  {
    hide ExecBranch;
  }

  lemma BlockExecutes(s: Core, m: Ram, b: Block)
    requires b.Valid()
    ensures InBounds(BlockTransfer(b)) && ExecInstruction(s, m, BlockTransfer(b)) == ExecBlock(s, m, b)
  {
    hide ExecBlock;
  }

  /** The effect of a block transfer in line `k`. */
  lemma BlockEffect(thumb: Pipeline.Exec, x: Pipeline.Plain, base: Word, k: int, b: Block)
    requires !x.core.cpsr.t && x.core.r[PC] == Offset(base, 4 * k + 8) && b.Valid() && b.rn != PC
    requires Decode(ReadWord(x.ram, Address(base, k))) == (ALWAYS, BlockTransfer(b))
    ensures Pipeline.Effect(CpuExec(thumb), x) == ExecBlock(Pipeline.AgeDelay(x.core), x.ram, b) && !Strays(x)
  {
    hide *;
    StandsAt(x, base, k, ALWAYS, BlockTransfer(b));
    AlwaysHolds(x.core.cpsr);
    ArmEffect(thumb, x);
    BlockExecutes(Standing(x).0, x.ram, b);
    LocalStays(x);
  }

  lemma JumpLands(s: Core, m: Ram, words: int)
    requires !s.cpsr.t
    ensures var o, to := ExecBranch(s, m, false, words), Offset(s.r[PC], 4 * words);
            o.Jump? && o.ram == m && Pipeline.Land(o.core) == s.(r := s.r[PC := Offset(AlignWord(to), 8)])
  {
    hide Offset, AlignWord;
    var to := Offset(s.r[PC], 4 * words);
    assert s.r[PC := to][PC := Offset(AlignWord(to), 8)] == s.r[PC := Offset(AlignWord(to), 8)];
  }

  // ------------------------------------------------------------------ runs of steps

  /** Careful steps with these lines lead from `x` to `y`. */
  predicate Leads(thumb: Pipeline.Exec, x: Pipeline.Plain, ls: seq<Pipeline.Lines>, y: Pipeline.Plain) {
    Pipeline.PlainRun(CpuExec(thumb), x, ls) == y && RunCareful(thumb, x, ls)
  }

  lemma LeadsFirst(thumb: Pipeline.Exec, x: Pipeline.Plain, ls: seq<Pipeline.Lines>, y: Pipeline.Plain)
    requires ls != []
    ensures Leads(thumb, x, ls, y) <==>
            Careful(thumb, x, ls[0]) && Leads(thumb, Pipeline.PlainStep(CpuExec(thumb), x, ls[0]), ls[1..], y)
  {
    hide Careful, Pipeline.PlainStep, CpuExec;
  }

  lemma LeadsNowhere(thumb: Pipeline.Exec, x: Pipeline.Plain, y: Pipeline.Plain)
    ensures Leads(thumb, x, [], y) <==> x == y
  {
  }

  lemma {:induction false} LeadsOn(thumb: Pipeline.Exec, x: Pipeline.Plain, ls: seq<Pipeline.Lines>, y: Pipeline.Plain,
                                   ks: seq<Pipeline.Lines>, z: Pipeline.Plain)
    requires Leads(thumb, x, ls, y) && Leads(thumb, y, ks, z)
    ensures Leads(thumb, x, ls + ks, z)
    decreases ls
  {
    hide *;
    if ls == [] {
      LeadsNowhere(thumb, x, y);
      assert ls + ks == ks;
    } else {
      LeadsFirst(thumb, x, ls, y);
      LeadsFirst(thumb, x, ls + ks, z);
      assert (ls + ks)[0] == ls[0] && (ls + ks)[1..] == ls[1..] + ks;
      LeadsOn(thumb, Pipeline.PlainStep(CpuExec(thumb), x, ls[0]), ls[1..], y, ks, z);
    }
  }

  /** `n` quiet steps. */
  predicate Goes(thumb: Pipeline.Exec, x: Pipeline.Plain, n: nat, y: Pipeline.Plain) { Leads(thumb, x, Quiet(n), y) }

  lemma GoesNowhere(thumb: Pipeline.Exec, x: Pipeline.Plain)
    ensures Goes(thumb, x, 0, x)
  {
  }

  lemma GoesFirst(thumb: Pipeline.Exec, x: Pipeline.Plain, n: nat, y: Pipeline.Plain)
    ensures Goes(thumb, x, n + 1, y) <==>
            Careful(thumb, x, QUIET) && Goes(thumb, Pipeline.PlainStep(CpuExec(thumb), x, QUIET), n, y)
  {
    assert Quiet(n + 1)[0] == QUIET && Quiet(n + 1)[1..] == Quiet(n);
    LeadsFirst(thumb, x, Quiet(n + 1), y);
    hide Careful, Pipeline.PlainStep, CpuExec, Quiet, Leads;
  }

  lemma GoesOn(thumb: Pipeline.Exec, x: Pipeline.Plain, a: nat, y: Pipeline.Plain, b: nat, z: Pipeline.Plain)
    requires Goes(thumb, x, a, y) && Goes(thumb, y, b, z)
    ensures Goes(thumb, x, a + b, z)
  {
    assert Quiet(a) + Quiet(b) == Quiet(a + b);
    hide Leads, Quiet;
    LeadsOn(thumb, x, Quiet(a), y, Quiet(b), z);
  }

  lemma OneStep(thumb: Pipeline.Exec, x: Pipeline.Plain, y: Pipeline.Plain)
    requires Pipeline.PlainStep(CpuExec(thumb), x, QUIET) == y && Careful(thumb, x, QUIET)
    ensures Goes(thumb, x, 1, y)
  {
    hide *;
    GoesNowhere(thumb, y);
    GoesFirst(thumb, x, 0, y);
  }
}
