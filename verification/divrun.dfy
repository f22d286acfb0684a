/// The words of the division routine on the CPU: from its first line to its last branch, pipe
/// included, with everything but its results as it was.
module DivRun {
  import opened Options
  import opened Alu
  import opened Shifter
  import opened CpuState
  import opened Arm
  import opened Encoding
  import opened Dispatch
  import opened ArmRuns
  import opened Stepping
  import Banking
  import opened BiosDiv
  import opened DivCode
  import Pipeline
  import Assembler
  import Blocks

  // ------------------------------------------------------------------ the words

  /** What the decoder has to see in line `k`. */
  function Meant(k: nat): (Nibble, Instruction)
    requires k <= LAST
  {
    match Routine(k)
    case Ins(op, cond) => (cond, if InRange(op) then Meaning(op) else Instruction.Undefined)
    case To(line, cond) => (cond, Branch(false, line - k - 2))
  }

  ghost predicate Code(m: Ram, base: Word) {
    forall k :: 0 <= k <= LAST ==> Decode(ReadWord(m, Address(base, k))) == Meant(k)
  }

  /** The word that is emitted for line `k`. */
  function Emitted(k: nat): Option<nat>
    requires k <= LAST
  {
    match Routine(k)
    case Ins(op, cond) => if InRange(op) then Encode(op, cond) else None
    case To(line, cond) => Some(Assembler.BranchWord(cond, false, 4 * k, 4 * line))
  }

  /** Instructions are in range, and between the first and the last line local data processing. */
  predicate Regular(k: nat)
    requires k <= LAST
  {
    match Routine(k)
    case Ins(op, cond) => InRange(op) && (op.RotImm? ==> op.imm == 0) && (1 <= k < LAST ==> Computes(op))
    case To(line, _) => 1 <= k < LAST && 1 <= line < LAST
  }

  lemma RegularSigns(k: nat, w: Work)
    requires k < ALIGN
    ensures Regular(k)
  {
    hide Did, DataOf, Computes, Meaning;
    match k
    case 1 => Differs(5, 0, 1, w);
    case 2 => Moves(4, 0, w);
    case 3 => ComparesZero(0, w);
    case 4 => Negates(0, w);
    case 5 => ComparesZero(1, w);
    case 6 => Negates(1, w);
    case 7 => MovesImmediate(3, w);
    case 8 => Moves(2, 1, w);
    case 9 => ComparesZero(2, w);
    case _ =>
  }

  lemma RegularDivide(k: nat, w: Work)
    requires ALIGN <= k < DONE && w.r0 == w.r1 == w.r2 == w.r3 == 0
    ensures Regular(k)
  {
    hide Did, DataOf, Computes, Meaning;
    match k
    case 11 => Compares(2, 0, w);
    case 13 => Doubles(2, w);
    case 15 => Compares(0, 2, w);
    case 16 => SubtractComputes();
    case 17 => DoublesWithCarry(3, w);
    case 18 => DivCode.Halves(2, w);
    case 19 => Compares(2, 1, w);
    case _ =>
  }

  lemma RegularResults(k: nat, w: Work)
    requires DONE <= k <= LAST
    ensures Regular(k)
  {
    hide Did, DataOf, Computes, Meaning;
    match k
    case 21 => ComparesZero(4, w);
    case 22 => Negates(0, w);
    case 23 => Moves(1, 0, w);
    case 24 => Moves(0, 3, w);
    case 25 => ComparesZero(5, w);
    case 26 => Negates(0, w);
    case 27 => Moves(3, 0, w);
    case 28 => ComparesZero(3, w);
    case 29 => Negates(3, w);
    case _ =>
  }

  lemma EveryLine(k: nat)
    requires k <= LAST
    ensures Regular(k)
  {
    hide Regular;
    var w := Work(0, 0, 0, 0, 0, 0, Psr(false, false, false, false, false, false, false, 0, 0));
    if k < ALIGN {
      RegularSigns(k, w);
    } else if k < DONE {
      RegularDivide(k, w);
    } else {
      RegularResults(k, w);
    }
  }

  /** Memory that holds the emitted words holds the routine. */
  lemma EmittedIsCode(m: Ram, base: Word)
    requires forall k :: 0 <= k <= LAST ==> Emitted(k) == Some(ReadWord(m, Address(base, k)))
    ensures Code(m, base)
  {
    forall k | 0 <= k <= LAST
      ensures Decode(ReadWord(m, Address(base, k))) == Meant(k)
    {
      EmittedMeant(k, ReadWord(m, Address(base, k)));
    }
    hide Emitted, Decode, Meant, Routine;
  }

  lemma EmittedMeant(k: nat, word: Word)
    requires k <= LAST && Emitted(k) == Some(word)
    ensures Decode(word) == Meant(k)
  {
    EveryLine(k);
    hide Routine, Decode, Encode, Meaning, Computes, InRange, Assembler.BranchWord;
    match Routine(k)
    case Ins(op, cond) => DecodesAll(op, cond);
    case To(line, cond) => BranchDecodes(4 * k, 4 * line, line - k - 2, cond, word);
  }

  lemma BranchDecodes(pc: nat, target: nat, words: int, cond: Nibble, word: Word)
    requires word == Assembler.BranchWord(cond, false, pc, target) && pc % 4 == 0 && target % 4 == 0
    requires target - pc - 8 == 4 * words && -0x80_0000 <= words < 0x80_0000
    ensures Decode(word) == (cond, Branch(false, words))
  {
    Assembler.DistanceExact(pc, target);
    Assembler.BranchDecodes(cond, false, words);
    hide Decode, Assembler.BranchCode, Assembler.Distance;
  }

  // ------------------------------------------------------------------ one line on the machine

  /** A core that works on `w` with PC at `pc`, otherwise as `c`. */
  function CoreAt(c: Core, w: Work, pc: Word, delay: nat): Core {
    c.(r := [w.r0, w.r1, w.r2, w.r3, w.r4, w.r5] + c.r[6..15] + [pc], cpsr := w.p, irqDelay := delay)
  }

  function At(c: Core, m: Ram, base: Word, k: int, w: Work, delay: nat): Pipeline.Plain {
    Pipeline.Plain(CoreAt(c, w, Offset(base, 4 * k + 8), delay), m, false)
  }

  lemma GetAt(c: Core, w: Work, pc: Word, delay: nat, i: nat)
    requires i < 6
    ensures CoreAt(c, w, pc, delay).r[i] == w.Get(i) && CoreAt(c, w, pc, delay).r[PC] == pc
    ensures CoreAt(c, w, pc, delay).cpsr == w.p
  {
  }

  lemma SetAt(c: Core, w: Work, pc: Word, delay: nat, i: nat, v: Word)
    requires i < 6
    ensures var s := CoreAt(c, w, pc, delay); CoreAt(c, w.Set(i, v), pc, delay) == s.(r := s.r[i := v])
  {
    var s := CoreAt(c, w, pc, delay);
    assert CoreAt(c, w.Set(i, v), pc, delay).r == s.r[i := v];
  }

  lemma FlagsAt(c: Core, w: Work, pc: Word, delay: nat, p: Psr)
    ensures CoreAt(c, w.(p := p), pc, delay) == CoreAt(c, w, pc, delay).(cpsr := p)
  {
  }

  lemma PcAt(c: Core, w: Work, pc: Word, delay: nat, pc': Word)
    ensures var s := CoreAt(c, w, pc, delay); CoreAt(c, w, pc', delay) == s.(r := s.r[PC := pc'])
  {
    var s := CoreAt(c, w, pc, delay);
    assert CoreAt(c, w, pc', delay).r == s.r[PC := pc'];
  }

  lemma SecondAt(c: Core, w: Work, pc: Word, delay: nat, d: DataProcessing)
    requires Local(d)
    ensures Operand2(CoreAt(c, w, pc, delay), d) == Second(w, d.op2)
    ensures Operand1(CoreAt(c, w, pc, delay), d) == w.Get(d.rn)
  {
    GetAt(c, w, pc, delay, d.rn);
    if d.op2.ByAmount? { GetAt(c, w, pc, delay, d.op2.rm); }
    GetAt(c, w, pc, delay, 0);
    hide CoreAt, Work.Get, Shifting, RotateRight;
  }

  /** Data processing on the working registers alone is what the CPU does. */
  lemma DidIs(c: Core, m: Ram, w: Work, pc: Word, delay: nat, d: DataProcessing)
    requires Local(d)
    ensures ExecDataProcessing(CoreAt(c, w, pc, delay), m, d) == Next(CoreAt(c, Did(d, w), pc, delay), m)
    ensures Did(d, w).p.t == w.p.t
  {
    SecondAt(c, w, pc, delay, d);
    GetAt(c, w, pc, delay, 0);
    var (b, carry) := Second(w, d.op2);
    ComputedKeepsT(w.p, d.opcode, w.Get(d.rn), b, carry);
    var (result, flags) := Computed(w.p, d.opcode, w.Get(d.rn), b, carry);
    FlagsAt(c, w, pc, delay, flags);
    SetAt(c, w, pc, delay, d.rd, result);
    SetAt(c, w.(p := flags), pc, delay, d.rd, result);
    hide Operand1, Operand2, Second, Computed, CoreAt, Work.Get;
  }

  lemma AtIs(c: Core, m: Ram, base: Word, k: int, w: Work, delay: nat)
    requires !w.p.t
    ensures var x := At(c, m, base, k, w, delay);
            && x == Pipeline.Plain(CoreAt(c, w, Offset(base, 4 * k + 8), delay), m, false)
            && !x.halted && x.ram == m && !x.core.cpsr.t && x.core.cpsr == w.p
               && x.core.r[PC] == Offset(base, 4 * k + 8)
            && Pipeline.AgeDelay(x.core) == CoreAt(c, w, Offset(base, 4 * k + 8), Aged(delay, 1))
  {
    hide Offset;
  }

  /** The effect of a line of data processing. */
  lemma DataEffect(thumb: Pipeline.Exec, c: Core, m: Ram, base: Word, k: int, w: Work, delay: nat,
                   d: DataProcessing, cond: Nibble)
    requires !w.p.t && Decode(ReadWord(m, Address(base, k))) == (cond, Data(d)) && Local(d)
    ensures var x := At(c, m, base, k, w, delay);
            var w' := if CheckCond(w.p, cond) then Did(d, w) else w;
            && Pipeline.Effect(CpuExec(thumb), x) == Next(CoreAt(c, w', Offset(base, 4 * k + 8), Aged(delay, 1)), m)
            && !Strays(x) && w'.p.t == w.p.t
  {
    assert d.Valid();
    hide *;
    var x := At(c, m, base, k, w, delay);
    AtIs(c, m, base, k, w, delay);
    StandsAt(x, base, k, cond, Data(d));
    DidIs(c, m, w, Offset(base, 4 * k + 8), Aged(delay, 1), d);
    ArmEffect(thumb, x);
    DataExecutes(Standing(x).0, m, d);
    LocalStays(x);
  }

  /** A line of data processing. */
  lemma DataLine(thumb: Pipeline.Exec, c: Core, m: Ram, base: Word, k: int, w: Work, delay: nat,
                 d: DataProcessing, cond: Nibble)
    requires !w.p.t && Decode(ReadWord(m, Address(base, k))) == (cond, Data(d)) && Local(d)
    ensures var x := At(c, m, base, k, w, delay);
            var w' := if CheckCond(w.p, cond) then Did(d, w) else w;
            && Pipeline.PlainStep(CpuExec(thumb), x, QUIET) == At(c, m, base, k + 1, w', Aged(delay, 1))
            && Careful(thumb, x, QUIET) && w'.p.t == w.p.t
  {
    hide *;
    var x, pc := At(c, m, base, k, w, delay), Offset(base, 4 * k + 8);
    var w' := if CheckCond(w.p, cond) then Did(d, w) else w;
    AtIs(c, m, base, k, w, delay);
    DataEffect(thumb, c, m, base, k, w, delay, d, cond);
    QuietIsCalm(x);
    StepNext(CpuExec(thumb), x, QUIET);
    CarefulIf(thumb, x, QUIET);
    OnePast(c, m, base, k, w', Aged(delay, 1));
  }

  lemma OnePast(c: Core, m: Ram, base: Word, k: int, w: Work, delay: nat)
    requires !w.p.t
    ensures var s := CoreAt(c, w, Offset(base, 4 * k + 8), delay);
            At(c, m, base, k + 1, w, delay) == Pipeline.Plain(s.(r := s.r[PC := Offset(s.r[PC], 4)]), m, false)
  {
    var pc := Offset(base, 4 * k + 8);
    GetAt(c, w, pc, delay, 0);
    OffsetTwice(base, 4 * k + 8, 4);
    PcAt(c, w, pc, delay, Offset(pc, 4));
    hide Offset, CoreAt;
  }

  /** A line that branches. */
  lemma BranchLine(thumb: Pipeline.Exec, c: Core, m: Ram, base: Word, k: int, w: Work, delay: nat,
                   words: int, cond: Nibble)
    requires base % 4 == 0 && !w.p.t && Decode(ReadWord(m, Address(base, k))) == (cond, Branch(false, words))
    ensures var x := At(c, m, base, k, w, delay);
            && Pipeline.PlainStep(CpuExec(thumb), x, QUIET)
               == At(c, m, base, if CheckCond(w.p, cond) then k + words + 2 else k + 1, w, Aged(delay, 1))
            && Careful(thumb, x, QUIET)
  {
    hide *;
    var x, late := At(c, m, base, k, w, delay), Aged(delay, 1);
    AtIs(c, m, base, k, w, delay);
    StandsAt(x, base, k, cond, Branch(false, words));
    ArmEffect(thumb, x);
    BranchExecutes(Standing(x).0, m, words);
    LocalStays(x);
    QuietIsCalm(x);
    StepNext(CpuExec(thumb), x, QUIET);
    OnePast(c, m, base, k, w, late);
    BranchLands(c, w, base, k, late, words, m);
    CarefulIf(thumb, x, QUIET);
    if CheckCond(w.p, cond) { AtIs(c, m, base, k + words + 2, w, late); }
  }

  lemma BranchLands(c: Core, w: Work, base: Word, k: int, delay: nat, words: int, m: Ram)
    requires base % 4 == 0 && !w.p.t
    ensures var o := ExecBranch(CoreAt(c, w, Offset(base, 4 * k + 8), delay), m, false, words);
            o.Jump? && o.ram == m && Pipeline.Land(o.core) == CoreAt(c, w, Offset(base, 4 * (k + words + 2) + 8), delay)
  {
    hide *;
    var t := k + words + 2;
    OffsetTwice(base, 4 * k + 8, 4 * words);
    assert 4 * k + 8 + 4 * words == 4 * t;
    LandsAt(c, w, base, Offset(base, 4 * k + 8), t, delay, words, m);
  }

  lemma LandsAt(c: Core, w: Work, base: Word, pc: Word, t: int, delay: nat, words: int, m: Ram)
    requires base % 4 == 0 && !w.p.t && Offset(pc, 4 * words) == Offset(base, 4 * t)
    ensures var o := ExecBranch(CoreAt(c, w, pc, delay), m, false, words);
            o.Jump? && o.ram == m && Pipeline.Land(o.core) == CoreAt(c, w, Offset(base, 4 * t + 8), delay)
  {
    hide *;
    GetAt(c, w, pc, delay, 0);
    JumpLands(CoreAt(c, w, pc, delay), m, words);
    OffsetTwice(base, 4 * t, 8);
    OffsetAligned(base, t);
    PcAt(c, w, pc, delay, Offset(base, 4 * t + 8));
  }

  // ------------------------------------------------------------------ many lines

  /** A line between the first and the last is a turn of the routine. */
  lemma LineTurns(thumb: Pipeline.Exec, c: Core, m: Ram, base: Word, k: nat, w: Work, delay: nat)
    requires Code(m, base) && base % 4 == 0 && 1 <= k < LAST && !w.p.t
    ensures var x, (k', w') := At(c, m, base, k, w, delay), Turn(k, w);
            && Pipeline.PlainStep(CpuExec(thumb), x, QUIET) == At(c, m, base, k', w', Aged(delay, 1))
            && Careful(thumb, x, QUIET) && !w'.p.t
  {
    hide Code, Regular, Meant, Turn, Decode, ReadWord, Address, Did, At, Pipeline.PlainStep, CpuExec, Careful, Local;
    EveryLine(k);
    MeantAt(m, base, k);
    match Routine(k)
    case Ins(op, cond) =>
      InstructionMeant(k, op, cond, w);
      DataLine(thumb, c, m, base, k, w, delay, DataOf(op), cond);
    case To(line, cond) =>
      BranchMeant(k, line, cond, w);
      BranchLine(thumb, c, m, base, k, w, delay, line - k - 2, cond);
  }

  lemma InstructionMeant(k: nat, op: Op, cond: Nibble, w: Work)
    requires 1 <= k < LAST && Routine(k) == Ins(op, cond) && Regular(k)
    ensures InRange(op) && Meaning(op).Data? && Local(DataOf(op)) && Meant(k) == (cond, Data(DataOf(op)))
    ensures Turn(k, w) == (k + 1, if CheckCond(w.p, cond) then Did(DataOf(op), w) else w)
  {
    hide Routine, Meaning, InRange, Did, Local, CheckCond;
  }

  lemma BranchMeant(k: nat, line: nat, cond: Nibble, w: Work)
    requires 1 <= k < LAST && Routine(k) == To(line, cond)
    ensures Meant(k) == (cond, Branch(false, line - k - 2))
            && Turn(k, w) == (if CheckCond(w.p, cond) then line else k + 1, w)
  {
    hide Routine, CheckCond;
  }

  /** The machine goes where the routine goes. */
  lemma {:induction false} Simulates(thumb: Pipeline.Exec, c: Core, m: Ram, base: Word, n: nat, k: nat, w: Work,
                                     delay: nat)
    requires Code(m, base) && base % 4 == 0 && !w.p.t && Iterate(n, k, w).Some?
    ensures var (k', w') := Iterate(n, k, w).value;
            Goes(thumb, At(c, m, base, k, w, delay), n, At(c, m, base, k', w', Aged(delay, n))) && !w'.p.t
    decreases n
  {
    hide *;
    if n == 0 {
      GoesNowhere(thumb, At(c, m, base, k, w, delay));
      Arrived(k, w);
      AgedTwice(delay, 0);
    } else {
      IterateFirst(n, k, w);
      AgedTwice(delay, n);
      var (k1, w1) := Turn(k, w);
      LineTurns(thumb, c, m, base, k, w, delay);
      assert Iterate(n - 1, k1, w1) == Iterate(n, k, w);
      Simulates(thumb, c, m, base, n - 1, k1, w1, Aged(delay, 1));
      var (k', w') := Iterate(n, k, w).value;
      GoesFirst(thumb, At(c, m, base, k, w, delay), n - 1, At(c, m, base, k', w', Aged(delay, n)));
    }
  }

  lemma AgedTwice(delay: nat, n: nat)
    ensures Aged(delay, 0) == delay && (n > 0 ==> Aged(Aged(delay, 1), n - 1) == Aged(delay, n))
  {
  }

  // ------------------------------------------------------------------ saving and restoring

  /** A list of registers 4 and 5. */
  predicate Saves(list: seq<bool>) { |list| == 16 && forall i :: 0 <= i < 16 ==> list[i] == (i == 4 || i == 5) }

  function Push(list: seq<bool>): Block { Block(true, false, false, true, false, 13, list) }

  function Pop(list: seq<bool>): Block { Block(false, true, false, true, true, 13, list) }

  lemma BitsFirst(v: nat, n: nat)
    requires n > 0
    ensures Bits(v, n) == [v % 2 == 1] + Bits(v / 2, n - 1)
  {
  }

  lemma SavedSaves()
    ensures Saves(ListBits(SAVED))
  {
    hide Bits;
    BitsFirst(0x30, 16);
    BitsFirst(0x18, 15);
    BitsFirst(0xC, 14);
    BitsFirst(6, 13);
    BitsFirst(3, 12);
    BitsFirst(1, 11);
    forall i | 6 <= i < 16 ensures !ListBits(SAVED)[i] { NoBits(10, i - 6); }
  }

  lemma {:induction false} SavedBelow(list: seq<bool>, i: nat)
    requires Saves(list) && i <= 16
    ensures Below(list, i) == if i <= 4 then 0 else if i == 5 then 1 else 2
  {
    if i > 0 { SavedBelow(list, i - 1); }
  }

  /** The stack words are none of the routine's. */
  ghost predicate Clear(m: Ram, base: Word, sp: Word) {
    forall k :: 0 <= k <= LAST + 1 ==> Apart(m, Address(base, k), sp)
  }

  predicate Apart(m: Ram, a: Word, sp: Word) {
    Index(m, a) != Index(m, Offset(sp, -8)) && Index(m, a) != Index(m, Offset(sp, -4))
  }

  lemma PushPlaces(sp: Word, list: seq<bool>)
    requires Saves(list)
    ensures Push(list).Valid() && Count(Push(list)) == 2
    ensures Start(sp, Push(list)) == Offset(sp, -8) && Final(sp, Push(list)) == Offset(sp, -8)
    ensures Blocks.Place(sp, Push(list), 4) == Offset(sp, -8) && Blocks.Place(sp, Push(list), 5) == Offset(sp, -4)
  {
    SavedBelow(list, 4);
    SavedBelow(list, 5);
    SavedBelow(list, 16);
    OffsetTwice(sp, -8, 0);
    OffsetTwice(sp, -8, 4);
    hide Below, Offset;
  }

  /** What the first line does: two words below the stack pointer, which moves there. */
  lemma Pushes(s: Core, m: Ram, list: seq<bool>)
    requires Blocks.Mirrors(m) && Saves(list)
    ensures var o, sp := ExecBlock(s, m, Push(list)), s.r[SP];
            && o.Next? && |o.ram| == |m| && o.core == s.(r := s.r[SP := Offset(sp, -8)])
            && ReadWord(o.ram, Offset(sp, -8)) == s.r[4] && ReadWord(o.ram, Offset(sp, -4)) == s.r[5]
            && o.ram == StoreFrom(s, m, list, Offset(sp, -8), 0)
  {
    PushPlaces(s.r[SP], list);
    Blocks.StmPlaces(s, m, Push(list), 4);
    Blocks.StmPlaces(s, m, Push(list), 5);
    hide Below, Offset, Index, ReadWord, Blocks.Mirrors, Blocks.Place, StoreFrom, Start, Final, Count;
    assert TransferMode(s, Push(list)) == s.mode;
    assert Banking.Named(s.mode, 4) == Banking.Cell(0, 4) && Banking.Named(s.mode, 5) == Banking.Cell(0, 5);
  }

  /** Other words stay. */
  lemma PushKeeps(s: Core, m: Ram, list: seq<bool>, a: Word)
    requires Blocks.Mirrors(m) && Saves(list) && Apart(m, a, s.r[SP])
    ensures ReadWord(StoreFrom(s, m, list, Offset(s.r[SP], -8), 0), a) == ReadWord(m, a)
  {
    var cur := Offset(s.r[SP], -8);
    OffsetTwice(s.r[SP], -8, 4);
    SavedBelow(list, 0);
    SavedBelow(list, 16);
    Blocks.AheadNone(m, Index(m, cur));
    Blocks.IndexAhead(m, cur, 1);
    hide Offset, Below, StoreFrom, Blocks.Ahead, Blocks.Mirrors;
    Blocks.StoreKeeps(s, m, list, cur, 0, Index(m, a));
  }

  lemma PopPlaces(sp: Word, list: seq<bool>)
    requires Saves(list)
    ensures Pop(list).Valid() && Count(Pop(list)) == 2
    ensures var low := Offset(sp, -8); Start(low, Pop(list)) == low && Final(low, Pop(list)) == sp
  {
    SavedBelow(list, 16);
    OffsetTwice(sp, -8, 0);
    OffsetTwice(sp, -8, 8);
    assert Offset(sp, 0) == sp;
    hide Below, Offset;
  }

  lemma PopLoads(s: Core, m: Ram, sp: Word, list: seq<bool>)
    requires s.r[SP] == Offset(sp, -8) && Saves(list)
    ensures LoadFrom(s.r, m, list, s.r[SP], 0)
         == s.r[4 := ReadWord(m, Offset(sp, -8))][5 := ReadWord(m, Offset(sp, -4))]
  {
    SavedBelow(list, 0);
    SavedBelow(list, 4);
    SavedBelow(list, 5);
    OffsetTwice(sp, -8, 0);
    OffsetTwice(sp, -8, 4);
    hide Below, Offset, ReadWord, LoadFrom;
    var r := LoadFrom(s.r, m, list, s.r[SP], 0);
    forall j | 0 <= j < 16
      ensures r[j] == s.r[4 := ReadWord(m, Offset(sp, -8))][5 := ReadWord(m, Offset(sp, -4))][j]
    {
      Blocks.LoadPlaces(s.r, m, list, s.r[SP], 0, j);
    }
  }

  /** What the last line does: the two registers and the stack pointer are back. */
  lemma Pops(s: Core, m: Ram, sp: Word, list: seq<bool>)
    requires s.r[SP] == Offset(sp, -8) && Saves(list)
    ensures Pop(list).Valid()
    ensures ExecBlock(s, m, Pop(list))
         == Next(s.(r := s.r[4 := ReadWord(m, Offset(sp, -8))][5 := ReadWord(m, Offset(sp, -4))][SP := sp]), m)
  {
    PopPlaces(sp, list);
    PopLoads(s, m, sp, list);
    hide Offset, ReadWord, LoadFrom, Start, Final, Count;
    assert TransferMode(s, Pop(list)) == s.mode;
  }

  // ------------------------------------------------------------------ the whole routine

  function WorkOf(s: Core): Work { Work(s.r[0], s.r[1], s.r[2], s.r[3], s.r[4], s.r[5], s.cpsr) }

  function WithSp(s: Core, sp: Word): Core { s.(r := s.r[SP := sp]) }

  lemma SelfAt(s: Core, pc: Word, delay: nat)
    ensures CoreAt(s, WorkOf(s), pc, delay) == s.(r := s.r[PC := pc], irqDelay := delay)
  {
    assert CoreAt(s, WorkOf(s), pc, delay).r == s.r[PC := pc];
  }

  lemma SpAt(c: Core, w: Work, pc: Word, delay: nat, sp: Word)
    ensures CoreAt(WithSp(c, sp), w, pc, delay) == WithSp(CoreAt(c, w, pc, delay), sp)
    ensures CoreAt(c, w, pc, delay).r[SP] == c.r[SP] && WorkOf(WithSp(c, sp)) == WorkOf(c)
  {
    assert CoreAt(WithSp(c, sp), w, pc, delay).r == CoreAt(c, w, pc, delay).r[SP := sp];
  }

  /** Words of the routine and the branch behind it. */
  ghost predicate Loaded(m: Ram, base: Word, back: int) {
    Code(m, base) && Decode(ReadWord(m, Address(base, LAST + 1))) == (ALWAYS, Branch(false, back))
  }

  lemma FirstMeant()
    ensures Meant(0) == (ALWAYS, BlockTransfer(Push(ListBits(SAVED))))
    ensures Meant(LAST) == (ALWAYS, BlockTransfer(Pop(ListBits(SAVED))))
  {
    hide ListBits;
  }

  lemma MeantAt(m: Ram, base: Word, k: nat)
    requires Code(m, base) && k <= LAST
    ensures Decode(ReadWord(m, Address(base, k))) == Meant(k)
  {
  }

  /** Memory after the first line. */
  function Pushed(x: Pipeline.Plain): Ram {
    StoreFrom(Pipeline.AgeDelay(x.core), x.ram, ListBits(SAVED), Offset(x.core.r[SP], -8), 0)
  }

  predicate Starts(x: Pipeline.Plain, base: Word) {
    !x.halted && !x.core.cpsr.t && x.core.r[PC] == Offset(base, 8) && Blocks.Mirrors(x.ram)
  }

  lemma PushedKeeps(x: Pipeline.Plain, a: Word)
    requires Blocks.Mirrors(x.ram) && Apart(x.ram, a, x.core.r[SP])
    ensures ReadWord(Pushed(x), a) == ReadWord(x.ram, a)
  {
    SavedSaves();
    Aging(x.core);
    hide ReadWord, StoreFrom, Apart, Saves, ListBits, Pipeline.AgeDelay, Blocks.Mirrors, Offset;
    PushKeeps(Pipeline.AgeDelay(x.core), x.ram, ListBits(SAVED), a);
  }

  lemma PushedLoaded(x: Pipeline.Plain, base: Word, back: int)
    requires Blocks.Mirrors(x.ram) && Clear(x.ram, base, x.core.r[SP]) && Loaded(x.ram, base, back)
    ensures Loaded(Pushed(x), base, back)
  {
    hide ReadWord, Apart, Pushed, Address, Decode, Meant, Blocks.Mirrors;
    forall k | 0 <= k <= LAST + 1
      ensures ReadWord(Pushed(x), Address(base, k)) == ReadWord(x.ram, Address(base, k))
    {
      PushedKeeps(x, Address(base, k));
    }
  }

  lemma PushesHere(x: Pipeline.Plain)
    requires Blocks.Mirrors(x.ram)
    ensures Push(ListBits(SAVED)).Valid()
    ensures var sp, s := x.core.r[SP], Pipeline.AgeDelay(x.core);
            && ExecBlock(s, x.ram, Push(ListBits(SAVED))) == Next(WithSp(s, Offset(sp, -8)), Pushed(x))
            && ReadWord(Pushed(x), Offset(sp, -8)) == x.core.r[4] && ReadWord(Pushed(x), Offset(sp, -4)) == x.core.r[5]
  {
    SavedSaves();
    Aging(x.core);
    Pushes(Pipeline.AgeDelay(x.core), x.ram, ListBits(SAVED));
    hide Offset, ReadWord, ListBits, ExecBlock, StoreFrom, Blocks.Mirrors, Saves, Pipeline.AgeDelay;
  }

  lemma FirstEffect(thumb: Pipeline.Exec, x: Pipeline.Plain, base: Word, back: int)
    requires Starts(x, base) && Loaded(x.ram, base, back)
    ensures var sp := x.core.r[SP];
            && Pipeline.Effect(CpuExec(thumb), x) == Next(WithSp(Pipeline.AgeDelay(x.core), Offset(sp, -8)), Pushed(x))
            && !Strays(x)
            && ReadWord(Pushed(x), Offset(sp, -8)) == x.core.r[4] && ReadWord(Pushed(x), Offset(sp, -4)) == x.core.r[5]
  {
    hide Offset, ReadWord, ListBits, ExecBlock, Pipeline.Effect, Strays, CpuExec, Blocks.Mirrors, Code, Decode,
         Pipeline.AgeDelay, Meant, Address, Pushed, Push, WithSp;
    FirstMeant();
    MeantAt(x.ram, base, 0);
    PushesHere(x);
    PushHasBase();
    BlockEffect(thumb, x, base, 0, Push(ListBits(SAVED)));
  }

  lemma PushHasBase()
    ensures Push(ListBits(SAVED)).rn != PC && Pop(ListBits(SAVED)).rn != PC
  {
    hide ListBits;
  }

  lemma FirstPlace(c: Core, base: Word, m: Ram)
    requires c.r[PC] == Offset(base, 8)
    ensures var s := WithSp(Pipeline.AgeDelay(c), Offset(c.r[SP], -8));
            At(WithSp(c, Offset(c.r[SP], -8)), m, base, 1, WorkOf(c), Aged(c.irqDelay, 1))
            == Pipeline.Plain(s.(r := s.r[PC := Offset(s.r[PC], 4)]), m, false)
  {
    var s := WithSp(c, Offset(c.r[SP], -8));
    SpAt(c, WorkOf(c), 0, 0, Offset(c.r[SP], -8));
    SelfAt(s, Offset(base, 12), Aged(c.irqDelay, 1));
    OffsetTwice(base, 8, 4);
    Aging(c);
    hide CoreAt, Offset, Pipeline.AgeDelay;
  }

  lemma FirstLine(thumb: Pipeline.Exec, x: Pipeline.Plain, base: Word, back: int)
    requires Starts(x, base) && Clear(x.ram, base, x.core.r[SP]) && Loaded(x.ram, base, back)
    ensures var sp := x.core.r[SP];
            && Pipeline.PlainStep(CpuExec(thumb), x, QUIET)
               == At(WithSp(x.core, Offset(sp, -8)), Pushed(x), base, 1, WorkOf(x.core), Aged(x.core.irqDelay, 1))
            && Careful(thumb, x, QUIET)
            && ReadWord(Pushed(x), Offset(sp, -8)) == x.core.r[4] && ReadWord(Pushed(x), Offset(sp, -4)) == x.core.r[5]
  {
    assert Apart(x.ram, Address(base, 1), x.core.r[SP]);
    assert Starts(x, base) ==> !x.halted && !x.core.cpsr.t && x.core.r[PC] == Offset(base, 8) && Blocks.Mirrors(x.ram);
    assert Address(base, 1) == Offset(base, 4);
    hide *;
    FirstEffect(thumb, x, base, back);
    QuietIsCalm(x);
    StepNext(CpuExec(thumb), x, QUIET);
    OffsetTwice(base, 8, -4);
    PushedKeeps(x, Address(base, 1));
    CarefulIf(thumb, x, QUIET);
    FirstPlace(x.core, base, Pushed(x));
  }

  // ------------------------------------------------------------------ and back

  /** The last line, where the stack words still are what was pushed. */
  lemma LastLine(thumb: Pipeline.Exec, c: Core, m: Ram, base: Word, w: Work, delay: nat, sp: Word, back: int)
    requires !w.p.t && Loaded(m, base, back)
    requires c.r[SP] == sp
    ensures var x := At(WithSp(c, Offset(sp, -8)), m, base, LAST, w, delay);
            var w' := w.(r4 := ReadWord(m, Offset(sp, -8)), r5 := ReadWord(m, Offset(sp, -4)));
            && Pipeline.PlainStep(CpuExec(thumb), x, QUIET) == At(c, m, base, LAST + 1, w', Aged(delay, 1))
            && Careful(thumb, x, QUIET)
  {
    MeantAt(m, base, LAST);
    FirstMeant();
    SavedSaves();
    PushHasBase();
    var c', pc := WithSp(c, Offset(sp, -8)), Offset(base, 4 * LAST + 8);
    var x := At(c', m, base, LAST, w, delay);
    var w' := w.(r4 := ReadWord(m, Offset(sp, -8)), r5 := ReadWord(m, Offset(sp, -4)));
    LastPlace(c, w, pc, Aged(delay, 1), sp, ReadWord(m, Offset(sp, -8)), ReadWord(m, Offset(sp, -4)));
    assert w'.p == w.p && c'.r[SP] == Offset(sp, -8);
    hide *;
    AtIs(c', m, base, LAST, w, delay);
    SpAt(c', w, pc, Aged(delay, 1), sp);
    Pops(CoreAt(c', w, pc, Aged(delay, 1)), m, sp, ListBits(SAVED));
    BlockEffect(thumb, x, base, LAST, Pop(ListBits(SAVED)));
    QuietIsCalm(x);
    StepNext(CpuExec(thumb), x, QUIET);
    CarefulIf(thumb, x, QUIET);
    OnePast(c, m, base, LAST, w', Aged(delay, 1));
  }

  lemma LastPlace(c: Core, w: Work, pc: Word, delay: nat, sp: Word, v4: Word, v5: Word)
    requires c.r[SP] == sp
    ensures var s := CoreAt(WithSp(c, Offset(sp, -8)), w, pc, delay);
            s.(r := s.r[4 := v4][5 := v5][SP := sp]) == CoreAt(c, w.(r4 := v4, r5 := v5), pc, delay)
  {
    var s := CoreAt(WithSp(c, Offset(sp, -8)), w, pc, delay);
    hide Offset;
    assert s.r[4 := v4][5 := v5][SP := sp] == CoreAt(c, w.(r4 := v4, r5 := v5), pc, delay).r;
  }

  /** What the caller finds: the results, everything else as it was but r2, the flags and the
      two words below the stack pointer, and PC behind the last branch. */
  ghost predicate Returned(x: Pipeline.Plain, y: Pipeline.Plain, base: Word, back: int) {
    var r, r' := x.core.r, y.core.r;
    && Divides(r[0], r[1], r'[0], r'[1], r'[3])
    && (forall k :: 4 <= k < 15 ==> r'[k] == r[k])
    && r'[PC] == Offset(base, 4 * (LAST + 3 + back) + 8)
    && y.core == x.core.(r := r', cpsr := y.core.cpsr, irqDelay := y.core.irqDelay)
    && !y.core.cpsr.t && !y.halted
    && (forall a: Word :: Apart(x.ram, a, r[SP]) ==> ReadWord(y.ram, a) == ReadWord(x.ram, a))
  }

  lemma ReturnedAt(x: Pipeline.Plain, base: Word, back: int, w: Work, delay: nat)
    requires Blocks.Mirrors(x.ram) && !w.p.t
    requires Divides(x.core.r[0], x.core.r[1], w.r0, w.r1, w.r3) && w.r4 == x.core.r[4] && w.r5 == x.core.r[5]
    ensures Returned(x, At(x.core, Pushed(x), base, LAST + 3 + back, w, delay), base, back)
  {
    hide Divides, Offset, Pushed, Apart, ReadWord;
    forall a: Word | Apart(x.ram, a, x.core.r[SP])
      ensures ReadWord(Pushed(x), a) == ReadWord(x.ram, a)
    {
      PushedKeeps(x, a);
    }
    var y := At(x.core, Pushed(x), base, LAST + 3 + back, w, delay);
    assert forall k :: 6 <= k < 15 ==> y.core.r[k] == x.core.r[k];
  }

  /** The last two lines. */
  lemma Leaves(thumb: Pipeline.Exec, c: Core, m: Ram, base: Word, w: Work, delay: nat, sp: Word, back: int)
    returns (w': Work, delay': nat)
    requires !w.p.t && Loaded(m, base, back) && c.r[SP] == sp && base % 4 == 0
    ensures w' == w.(r4 := ReadWord(m, Offset(sp, -8)), r5 := ReadWord(m, Offset(sp, -4)))
    ensures Goes(thumb, At(WithSp(c, Offset(sp, -8)), m, base, LAST, w, delay), 2,
                 At(c, m, base, LAST + 3 + back, w', delay'))
  {
    assert Decode(ReadWord(m, Address(base, LAST + 1))) == (ALWAYS, Branch(false, back));
    assert LAST + 1 + back + 2 == LAST + 3 + back;
    hide *;
    var x := At(WithSp(c, Offset(sp, -8)), m, base, LAST, w, delay);
    w' := w.(r4 := ReadWord(m, Offset(sp, -8)), r5 := ReadWord(m, Offset(sp, -4)));
    var late := Aged(delay, 1);
    delay' := Aged(late, 1);
    LastLine(thumb, c, m, base, w, delay, sp, back);
    BranchLine(thumb, c, m, base, LAST + 1, w', late, back, ALWAYS);
    AlwaysHolds(w'.p);
    var y, z := At(c, m, base, LAST + 1, w', late), At(c, m, base, LAST + 3 + back, w', delay');
    OneStep(thumb, x, y);
    OneStep(thumb, y, z);
    GoesOn(thumb, x, 1, y, 1, z);
  }

  /** The lines in between. */
  lemma Computing(thumb: Pipeline.Exec, c: Core, m: Ram, base: Word, w: Work, delay: nat)
    returns (n: nat, w': Work, delay': nat)
    requires !w.p.t && Code(m, base) && base % 4 == 0
    ensures Goes(thumb, At(c, m, base, 1, w, delay), n, At(c, m, base, LAST, w', delay')) && !w'.p.t
    ensures Divides(w.r0, w.r1, w'.r0, w'.r1, w'.r3)
  {
    hide *;
    n, w' := RoutineDivides(w);
    delay' := Aged(delay, n);
    Simulates(thumb, c, m, base, n, 1, w, delay);
  }

  /** From its first line to its last branch, on the machine without a pipe. */
  lemma DivRuns(thumb: Pipeline.Exec, x: Pipeline.Plain, base: Word, back: int) returns (n: nat, y: Pipeline.Plain)
    requires base % 4 == 0 && Starts(x, base) && Clear(x.ram, base, x.core.r[SP]) && Loaded(x.ram, base, back)
    ensures Goes(thumb, x, n, y) && Returned(x, y, base, back)
  {
    var c, m, sp, w0, d := x.core, Pushed(x), x.core.r[SP], WorkOf(x.core), Aged(x.core.irqDelay, 1);
    var c' := WithSp(c, Offset(sp, -8));
    assert !w0.p.t && w0.r0 == c.r[0] && w0.r1 == c.r[1] && Blocks.Mirrors(x.ram);
    PushedLoaded(x, base, back);
    assert Code(m, base);
    hide *;
    FirstLine(thumb, x, base, back);
    var x1 := At(c', m, base, 1, w0, d);
    OneStep(thumb, x, x1);
    var k, w1, d1 := Computing(thumb, c', m, base, w0, d);
    var x2 := At(c', m, base, LAST, w1, d1);
    var w2, d2 := Leaves(thumb, c, m, base, w1, d1, sp, back);
    y := At(c, m, base, LAST + 3 + back, w2, d2);
    ReturnedAt(x, base, back, w2, d2);
    GoesOn(thumb, x1, k, x2, 2, y);
    GoesOn(thumb, x, 1, x1, k + 2, y);
    n := k + 3;
  }

  /** On the CPU with its pipe, in ARM state before the first line, with the emitted words in
      memory, the stack elsewhere and no interrupt coming: after some steps the CPU stands
      behind the last branch with the quotient in r0, the remainder in r1 and the quotient's
      magnitude in r3, with r4 to r14, mode and banks as before, and its pipe full. */
  lemma DivOnCpu(thumb: Pipeline.Exec, x: Pipeline.Machine, base: Word, back: int) returns (n: nat)
    requires Pipeline.Holds(x) && base % 4 == 0 && Starts(Pipeline.Unpiped(x), base)
    requires Clear(x.ram, base, x.cpu.core.r[SP])
    requires forall k :: 0 <= k <= LAST ==> Emitted(k) == Some(ReadWord(x.ram, Address(base, k)))
    requires Decode(ReadWord(x.ram, Address(base, LAST + 1))) == (ALWAYS, Branch(false, back))
    ensures var y := Pipeline.Run(CpuExec(thumb), x, Quiet(n));
            Pipeline.Holds(y) && Returned(Pipeline.Unpiped(x), Pipeline.Unpiped(y), base, back)
  {
    EmittedIsCode(x.ram, base);
    assert Loaded(x.ram, base, back);
    assert Pipeline.Unpiped(x).ram == x.ram && Pipeline.Unpiped(x).core == x.cpu.core;
    var y;
    n, y := DivRuns(thumb, Pipeline.Unpiped(x), base, back);
    assert RunCareful(thumb, Pipeline.Unpiped(x), Quiet(n));
    ArmRunRefines(thumb, x, Quiet(n));
    hide Returned, RunCareful, Pipeline.PlainRun, Pipeline.Run, CpuExec, Pipeline.Holds, Quiet, Emitted, Code, Decode,
         Clear;
  }
}
