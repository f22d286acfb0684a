/// An interrupt served by the BIOS handler and a handler of the program, all on the same CPU:
/// the interrupted program finds everything as it was.
module IrqRun {
  import opened Alu
  import opened CpuState
  import opened Banking
  import opened Arm
  import opened Transfers
  import opened Encoding
  import opened Dispatch
  import opened ArmRuns
  import opened Stepping
  import opened Interrupts
  import opened IrqCode
  import Pipeline
  import Blocks

  // ------------------------------------------------------------------ saving and restoring

  /** A list of registers 0 to 3, 12 and 14. */
  predicate Saves(list: seq<bool>) {
    |list| == 16 && forall i :: 0 <= i < 16 ==> list[i] == (i < 4 || i == 12 || i == 14)
  }

  function Push(list: seq<bool>): Block { Block(true, false, false, true, false, 13, list) }

  lemma SavedSaves()
    ensures Saves(ListBits(SAVED))
  {
    hide Bits;
    BitsFirst(0x500F, 16);
    BitsFirst(0x2807, 15);
    BitsFirst(0x1403, 14);
    BitsFirst(0xA01, 13);
    BitsFirst(0x500, 12);
    BitsFirst(0x280, 11);
    BitsFirst(0x140, 10);
    BitsFirst(0xA0, 9);
    BitsFirst(0x50, 8);
    BitsFirst(0x28, 7);
    BitsFirst(0x14, 6);
    BitsFirst(0xA, 5);
    BitsFirst(5, 4);
    BitsFirst(2, 3);
    BitsFirst(1, 2);
    BitsFirst(0, 1);
  }

  lemma BitsFirst(v: nat, n: nat)
    requires n > 0
    ensures Bits(v, n) == [v % 2 == 1] + Bits(v / 2, n - 1)
  {
  }

  lemma {:induction false} SavedBelow(list: seq<bool>, i: nat)
    requires Saves(list) && i <= 16
    ensures Below(list, i) == if i <= 4 then i else if i <= 12 then 4 else if i <= 14 then 5 else 6
  {
    if i > 0 { SavedBelow(list, i - 1); }
  }

  /** Word `j` of the six on the stack. */
  function Slot(sp: Word, j: int): Word { Offset(sp, -24 + 4 * j) }

  predicate Apart(m: Ram, a: Word, sp: Word) { forall j :: 0 <= j < 6 ==> Index(m, a) != Index(m, Slot(sp, j)) }

  lemma PushPlaces(sp: Word, list: seq<bool>)
    requires Saves(list)
    ensures Push(list).Valid() && Count(Push(list)) == 6
    ensures Start(sp, Push(list)) == Slot(sp, 0) && Final(sp, Push(list)) == Slot(sp, 0)
  {
    SavedBelow(list, 16);
    hide Below, Offset;
  }

  /** Every listed register has one of the six places. */
  lemma PlaceIs(sp: Word, list: seq<bool>, i: nat)
    requires Saves(list) && i < 16 && list[i]
    ensures Blocks.Place(sp, Push(list), i) == Slot(sp, Below(list, i)) && 0 <= Below(list, i) < 6
  {
    PushPlaces(sp, list);
    SavedBelow(list, i);
    OffsetTwice(sp, -24, 4 * Below(list, i));
    hide Below, Offset, Start;
  }

  lemma Pushes(s: Core, m: Ram, list: seq<bool>)
    requires Saves(list)
    ensures ExecBlock(s, m, Push(list)) == Next(With(s, SP, Slot(s.r[SP], 0)),
                                                StoreFrom(s, m, list, Slot(s.r[SP], 0), 0))
  {
    PushPlaces(s.r[SP], list);
    hide Below, Offset, StoreFrom, Start, Final, Count, Slot;
    assert TransferMode(s, Push(list)) == s.mode;
  }

  /** Words that are not on the stack stay. */
  lemma PushKeeps(s: Core, m: Ram, list: seq<bool>, a: Word)
    requires Blocks.Mirrors(m) && Saves(list) && Apart(m, a, s.r[SP])
    ensures ReadWord(StoreFrom(s, m, list, Slot(s.r[SP], 0), 0), a) == ReadWord(m, a)
  {
    var sp, cur := s.r[SP], Slot(s.r[SP], 0);
    SavedBelow(list, 0);
    SavedBelow(list, 16);
    hide Offset, Below, StoreFrom, Blocks.Ahead, Blocks.Mirrors, Index;
    forall d | 0 <= d < 6
      ensures Blocks.Ahead(m, Index(m, cur), d) != Index(m, a)
    {
      OffsetTwice(sp, -24, 4 * d);
      Blocks.IndexAhead(m, cur, d);
      assert Offset(cur, 4 * d) == Slot(sp, d);
    }
    Blocks.StoreKeeps(s, m, list, cur, 0, Index(m, a));
  }

  lemma {:induction false} StoreKeepsBlock(s: Core, s': Core, m: Ram, list: seq<bool>, cur: Word, i: nat)
    requires |list| == 16 && i <= 16 && s'.r == s.r
    ensures StoreFrom(s', m, list, cur, i) == StoreFrom(s, m, list, cur, i)
    decreases 16 - i
  {
    if i < 16 {
      StoreKeepsBlock(s, s', if list[i] then WriteWord(m, cur, Stored(s, i)) else m, list,
                      if list[i] then Offset(cur, 4) else cur, i + 1);
    }
  }

  // ------------------------------------------------------------------ where the words are

  const FLAGS: Word := 0x03FF_FFF8

  /** The stack, the word of the interrupt flags and the handler's code are apart. */
  ghost predicate Clear(m: Ram, sp: Word) {
    && (forall k :: 0 <= k <= RETURN ==>
          Apart(m, Address(HANDLER, k), sp) && Index(m, Address(HANDLER, k)) != Index(m, FLAGS))
    && Apart(m, FLAGS, sp)
  }

  /** The handler's code is as in `m`. */
  ghost predicate SameCode(m: Ram, m': Ram) {
    && |m'| == |m|
    && forall k :: 0 <= k <= RETURN ==> ReadWord(m', Address(HANDLER, k)) == ReadWord(m, Address(HANDLER, k))
  }

  ghost predicate SameStack(m: Ram, m': Ram, sp: Word) {
    forall j :: 0 <= j < 6 ==> ReadWord(m', Slot(sp, j)) == ReadWord(m, Slot(sp, j))
  }

  lemma CodeAt(m: Ram, m': Ram, k: nat)
    requires Installed(m) && SameCode(m, m') && k <= RETURN
    ensures InRange(Line(k)) && Decode(ReadWord(m', Address(HANDLER, k))) == (ALWAYS, Meaning(Line(k)))
  {
    Decoded(m, k);
    hide Line, Decode, Meaning, ReadWord, Address, Installed;
  }

  // ------------------------------------------------------------------ line by line

  /** Between entry and the call: mode, status and banks as entered, PC before line `k`, and
      registers 4 to 11 and the stack pointer as they were but for the six words. */
  predicate Working(e: Core, x: Pipeline.Plain, k: int) {
    && x.core == e.(r := x.core.r, irqDelay := x.core.irqDelay) && !x.halted
    && !e.cpsr.t && e.cpsr.i && x.core.r[PC] == Offset(HANDLER, 4 * k + 8)
    && (forall j :: 4 <= j < 12 ==> x.core.r[j] == e.r[j]) && x.core.r[SP] == Slot(e.r[SP], 0)
  }

  /** The first `n` lines of `ls` lead from `x0` to `x`. */
  predicate Reaches(thumb: Pipeline.Exec, x0: Pipeline.Plain, ls: seq<Pipeline.Lines>, n: nat, x: Pipeline.Plain) {
    n <= |ls| && Leads(thumb, x0, ls[..n], x)
  }

  lemma ReachesNext(thumb: Pipeline.Exec, x0: Pipeline.Plain, ls: seq<Pipeline.Lines>, n: nat, x: Pipeline.Plain,
                    y: Pipeline.Plain)
    requires Reaches(thumb, x0, ls, n, x) && n < |ls|
    requires Careful(thumb, x, ls[n]) && Pipeline.PlainStep(CpuExec(thumb), x, ls[n]) == y
    ensures Reaches(thumb, x0, ls, n + 1, y)
  {
    hide Leads, Careful, Pipeline.PlainStep, CpuExec;
    LeadsNowhere(thumb, y, y);
    LeadsFirst(thumb, x, [ls[n]], y);
    assert [ls[n]][1..] == [] && ls[..n] + [ls[n]] == ls[..n + 1];
    LeadsOn(thumb, x0, ls[..n], x, [ls[n]], y);
  }

  lemma NextWord(k: int)
    ensures Offset(Offset(HANDLER, 4 * k + 8), -4) == Address(HANDLER, k + 1)
    ensures Offset(Offset(HANDLER, 4 * k + 8), 4) == Offset(HANDLER, 4 * (k + 1) + 8)
  {
    OffsetTwice(HANDLER, 4 * k + 8, -4);
    OffsetTwice(HANDLER, 4 * k + 8, 4);
    hide Offset;
  }

  lemma WorkingNext(e: Core, x: Pipeline.Plain, k: int, rd: nat, v: Word, y: Pipeline.Plain)
    requires Working(e, x, k) && (rd < 4 || rd == 12 || rd == LR)
    requires var s := With(Pipeline.AgeDelay(x.core), rd, v);
             y == Pipeline.Plain(s.(r := s.r[PC := Offset(s.r[PC], 4)]), x.ram, false)
    ensures Working(e, y, k + 1) && y.ram == x.ram
    ensures forall j :: 0 <= j < 15 ==> y.core.r[j] == if j == rd then v else x.core.r[j]
  {
    Aging(x.core);
    NextWord(k);
    hide Offset, Pipeline.AgeDelay, Slot;
  }

  lemma WorkingCalm(e: Core, x: Pipeline.Plain, k: int, l: Pipeline.Lines)
    requires Working(e, x, k) && !l.halts
    ensures Calm(x, l) && !x.core.cpsr.t && x.core.r[PC] == Offset(HANDLER, 4 * k + 8)
  {
    hide Offset, Slot;
  }

  /** A line that does not jump. */
  lemma Advances(thumb: Pipeline.Exec, x0: Pipeline.Plain, ls: seq<Pipeline.Lines>, n: nat, x: Pipeline.Plain, k: int,
                 i: Instruction, s: Core, m: Ram)
    requires Reaches(thumb, x0, ls, n, x) && n < |ls| && Calm(x, ls[n])
    requires !x.core.cpsr.t && x.core.r[PC] == Offset(HANDLER, 4 * k + 8)
    requires Decode(ReadWord(x.ram, Address(HANDLER, k))) == (ALWAYS, i) && !StraysPc(i) && !i.Msr? && InBounds(i)
    requires ExecInstruction(Pipeline.AgeDelay(x.core), x.ram, i) == Next(s, m)
    requires ReadWord(m, Address(HANDLER, k + 1)) == ReadWord(x.ram, Address(HANDLER, k + 1))
    ensures Reaches(thumb, x0, ls, n + 1, Pipeline.Plain(s.(r := s.r[PC := Offset(s.r[PC], 4)]), m, false))
  {
    hide *;
    Numbers();
    NextWord(k);
    InstructionEffect(thumb, x, HANDLER, k, i);
    StepNext(CpuExec(thumb), x, ls[n]);
    CarefulIf(thumb, x, ls[n]);
    ReachesNext(thumb, x0, ls, n, x, Pipeline.Plain(s.(r := s.r[PC := Offset(s.r[PC], 4)]), m, false));
  }

  /** A line that sets a scratch register. */
  lemma Sets(thumb: Pipeline.Exec, x0: Pipeline.Plain, ls: seq<Pipeline.Lines>, n: nat, e: Core, x: Pipeline.Plain,
             k: nat,
             i: Instruction, rd: nat, v: Word) returns (y: Pipeline.Plain)
    requires Reaches(thumb, x0, ls, n, x) && n < |ls| && !ls[n].halts && Working(e, x, k)
    requires Decode(ReadWord(x.ram, Address(HANDLER, k))) == (ALWAYS, i) && !StraysPc(i) && !i.Msr? && InBounds(i)
    requires rd < 4 || rd == 12 || rd == LR
    requires ExecInstruction(Pipeline.AgeDelay(x.core), x.ram, i) == Next(With(Pipeline.AgeDelay(x.core), rd, v), x.ram)
    ensures Reaches(thumb, x0, ls, n + 1, y) && Working(e, y, k + 1) && y.ram == x.ram
    ensures forall j :: 0 <= j < 15 ==> y.core.r[j] == if j == rd then v else x.core.r[j]
  {
    hide *;
    Numbers();
    var s := With(Pipeline.AgeDelay(x.core), rd, v);
    y := Pipeline.Plain(s.(r := s.r[PC := Offset(s.r[PC], 4)]), x.ram, false);
    WorkingCalm(e, x, k, ls[n]);
    WorkingNext(e, x, k, rd, v, y);
    Advances(thumb, x0, ls, n, x, k, i, s, x.ram);
  }

  // ------------------------------------------------------------------ entering

  function Pushed(e: Core, m: Ram): Ram { StoreFrom(e, m, ListBits(SAVED), Slot(e.r[SP], 0), 0) }

  /** An interrupt is taken: the core at the vector. */
  lemma Vectored(thumb: Pipeline.Exec, x: Pipeline.Plain, l: Pipeline.Lines)
    requires Pipeline.TakesIrq(x.core, l)
    ensures Careful(thumb, x, l)
    ensures Pipeline.PlainStep(CpuExec(thumb), x, l) == Pipeline.Plain(TakeIrq(x.core, x.ram).core, x.ram, false)
  {
    var ret := if x.core.cpsr.t then x.core.r[PC] else Offset(x.core.r[PC], -4);
    Pipeline.JumpRefines(Enter(x.core, Irq, ret, 0x18), x.ram);
    hide Enter, Flush, Pipeline.Land, Strays, Pipeline.Misses;
  }

  lemma TakenIs(s: Core, m: Ram)
    ensures var e := TakeIrq(s, m).core;
            e.mode == Irq && !e.cpsr.t && e.cpsr.i && e.r[PC] == 0x20
                && (s.mode != Irq ==> e.r[SP] == s.r13[Irq.Bank()])
  {
    var ret := if s.cpsr.t then s.r[PC] else Offset(s.r[PC], -4);
    var e := Enter(s, Irq, ret, 0x18);
    FlushHolds(e, m);
    assert Flush(e, m).core.r[PC] == Offset(AlignWord(0x18), 8) == 0x20;
    SwitchKeepsSpsr(s, Irq);
    SwitchPointers(s, Irq);
    SwitchSetsMode(s, Irq);
    hide SwitchMode, Flush;
  }

  /** The branch at the vector. */
  lemma Branched(thumb: Pipeline.Exec, x: Pipeline.Plain, l: Pipeline.Lines)
    requires Installed(x.ram) && Calm(x, l) && !x.core.cpsr.t && x.core.r[PC] == 0x20
    ensures Careful(thumb, x, l)
    ensures Pipeline.PlainStep(CpuExec(thumb), x, l)
         == Pipeline.Plain(With(Pipeline.AgeDelay(x.core), PC, Offset(HANDLER, 8)), x.ram, false)
  {
    hide *;
    var s := Pipeline.AgeDelay(x.core);
    VectorAddresses();
    VectorDecoded(x.ram);
    Aging(x.core);
    InstructionEffect(thumb, x, 0x18, 0, Branch(false, 66));
    BranchExecutes(s, x.ram, 66);
    JumpLands(s, x.ram, 66);
    WithPc(s, Offset(HANDLER, 8));
    StepNext(CpuExec(thumb), x, l);
    CarefulIf(thumb, x, l);
  }

  lemma VectorAddresses()
    ensures Address(0x18, 0) == 0x18 && Offset(0x18, 8) == 0x20
    ensures Offset(AlignWord(Offset(0x20, 264)), 8) == Offset(HANDLER, 8)
  {
  }

  lemma VectorDecoded(m: Ram)
    requires Installed(m)
    ensures Decode(ReadWord(m, 0x18)) == (ALWAYS, Branch(false, 66)) && !StraysPc(Branch(false, 66))
  {
    hide Decode, ReadWord, Address, Encode, Line;
  }

  lemma WithPc(s: Core, pc: Word)
    ensures With(s, PC, pc) == s.(r := s.r[PC := pc])
  {
  }

  lemma SavedValid()
    ensures Saves(ListBits(SAVED)) && Meaning(Line(0)) == BlockTransfer(Push(ListBits(SAVED)))
    ensures Meaning(Line(9)) == BlockTransfer(Blocks.Opposite(Push(ListBits(SAVED))))
  {
    SavedSaves();
    hide ListBits;
  }

  lemma PushedSame(e: Core, e': Core, m: Ram)
    requires e'.r == e.r
    ensures Pushed(e', m) == Pushed(e, m)
  {
    SavedSaves();
    StoreKeepsBlock(e, e', m, ListBits(SAVED), Slot(e.r[SP], 0), 0);
    hide ListBits, StoreFrom, Slot;
  }

  lemma PushedKeeps(e: Core, m: Ram, a: Word)
    requires Blocks.Mirrors(m) && Apart(m, a, e.r[SP])
    ensures |Pushed(e, m)| == |m| && ReadWord(Pushed(e, m), a) == ReadWord(m, a)
  {
    SavedSaves();
    hide ListBits, StoreFrom, Slot, ReadWord, Apart;
    PushKeeps(e, m, ListBits(SAVED), a);
  }

  lemma PushesHere(x: Pipeline.Plain)
    ensures var s, i := Pipeline.AgeDelay(x.core), Meaning(Line(0));
            && InBounds(i) && !StraysPc(i) && !i.Msr?
            && ExecInstruction(s, x.ram, i) == Next(With(s, SP, Slot(x.core.r[SP], 0)), Pushed(x.core, x.ram))
  {
    var s := Pipeline.AgeDelay(x.core);
    Aging(x.core);
    SavedValid();
    PushedSame(x.core, s, x.ram);
    hide ExecInstruction, ExecBlock, StoreFrom, Pipeline.AgeDelay, Slot, Meaning, ListBits, Saves;
    Pushes(s, x.ram, ListBits(SAVED));
    PushPlaces(x.core.r[SP], ListBits(SAVED));
    BlockExecutes(s, x.ram, Push(ListBits(SAVED)));
  }

  lemma WorkingFirst(x: Pipeline.Plain, m: Ram, y: Pipeline.Plain)
    requires !x.core.cpsr.t && x.core.cpsr.i && x.core.r[PC] == Offset(HANDLER, 8)
    requires var s := With(Pipeline.AgeDelay(x.core), SP, Slot(x.core.r[SP], 0));
             y == Pipeline.Plain(s.(r := s.r[PC := Offset(s.r[PC], 4)]), m, false)
    ensures Working(x.core, y, 1)
  {
    Aging(x.core);
    NextWord(0);
    hide Offset, Pipeline.AgeDelay, Slot;
  }

  lemma ApartAt(m: Ram, sp: Word, k: nat)
    requires Clear(m, sp) && k <= RETURN
    ensures Apart(m, Address(HANDLER, k), sp) && Index(m, Address(HANDLER, k)) != Index(m, FLAGS)
  {
    hide Apart, Address, Index;
  }

  lemma Numbers()
    ensures PC == 15 && LR == 14 && SP == 13 && RETURN == 10 && CALL == 8
  {
  }

  /** The first line of the handler. */
  lemma Saved(thumb: Pipeline.Exec, x0: Pipeline.Plain, ls: seq<Pipeline.Lines>, n: nat, x: Pipeline.Plain)
    returns (y: Pipeline.Plain)
    requires Reaches(thumb, x0, ls, n, x) && n < |ls| && Calm(x, ls[n])
    requires Installed(x.ram) && Blocks.Mirrors(x.ram) && Clear(x.ram, x.core.r[SP])
    requires !x.core.cpsr.t && x.core.cpsr.i && x.core.r[PC] == Offset(HANDLER, 8)
    ensures Reaches(thumb, x0, ls, n + 1, y) && Working(x.core, y, 1) && y.ram == Pushed(x.core, x.ram)
  {
    hide *;
    Numbers();
    ApartAt(x.ram, x.core.r[SP], 1);
    Decoded(x.ram, 0);
    PushesHere(x);
    PushedKeeps(x.core, x.ram, Address(HANDLER, 1));
    var s := With(Pipeline.AgeDelay(x.core), SP, Slot(x.core.r[SP], 0));
    y := Pipeline.Plain(s.(r := s.r[PC := Offset(s.r[PC], 4)]), Pushed(x.core, x.ram), false);
    WorkingFirst(x, Pushed(x.core, x.ram), y);
    Advances(thumb, x0, ls, n, x, 0, Meaning(Line(0)), s, Pushed(x.core, x.ram));
  }

  // ------------------------------------------------------------------ calling the program's handler

  lemma CodeSame(m: Ram, m': Ram, e: Core)
    requires Blocks.Mirrors(m) && Clear(m, e.r[SP]) && m' == Pushed(e, m)
    ensures SameCode(m, m')
  {
    hide Pushed, ReadWord, Address, Apart, Blocks.Mirrors, Index;
    forall k | 0 <= k <= RETURN
      ensures ReadWord(m', Address(HANDLER, k)) == ReadWord(m, Address(HANDLER, k))
    {
      PushedKeeps(e, m, Address(HANDLER, k));
    }
    PushedKeeps(e, m, Address(HANDLER, 0));
  }

  /** Lines 1 to 5 and 7. */
  lemma SetLine(thumb: Pipeline.Exec, x0: Pipeline.Plain, ls: seq<Pipeline.Lines>, n: nat, e: Core, m: Ram,
                x: Pipeline.Plain, k: nat) returns (y: Pipeline.Plain)
    requires Reaches(thumb, x0, ls, n, x) && n < |ls| && !ls[n].halts && Working(e, x, k)
    requires Installed(m) && SameCode(m, x.ram) && 1 <= k <= 7 && k != 6
    ensures Reaches(thumb, x0, ls, n + 1, y) && Working(e, y, k + 1) && y.ram == x.ram
    ensures y.core.r[0] == if k == 1 then IO else x.core.r[0]
    ensures k == 7 ==> y.core.r[LR] == Address(HANDLER, 9)
  {
    hide *;
    Numbers();
    CodeAt(m, x.ram, k);
    var rd, v := LineSets(Pipeline.AgeDelay(x.core), x.ram, k);
    y := Sets(thumb, x0, ls, n, e, x, k, Meaning(Line(k)), rd, v);
    ReturnAddress(e, x, k);
  }

  lemma ReturnAddress(e: Core, x: Pipeline.Plain, k: int)
    requires Working(e, x, k)
    ensures k == 7 ==> Offset(Pipeline.AgeDelay(x.core).r[PC], 0) == Address(HANDLER, 9)
  {
    Aging(x.core);
    OffsetTwice(HANDLER, 36, 0);
    hide Offset, Pipeline.AgeDelay;
  }

  /** Line 6 stores the interrupt flags that were seen. */
  function Flagged(x: Pipeline.Plain): Ram { WriteHalf(x.ram, FLAGS, x.core.r[2]) }

  lemma FlagLine(thumb: Pipeline.Exec, x0: Pipeline.Plain, ls: seq<Pipeline.Lines>, n: nat, e: Core, m: Ram,
                 x: Pipeline.Plain) returns (y: Pipeline.Plain)
    requires Reaches(thumb, x0, ls, n, x) && n < |ls| && !ls[n].halts && Working(e, x, 6) && x.core.r[0] == IO
    requires Installed(m) && SameCode(m, x.ram) && Clear(m, e.r[SP])
    ensures Reaches(thumb, x0, ls, n + 1, y) && Working(e, y, 7) && y.ram == Flagged(x) && y.core.r[0] == IO
  {
    hide *;
    Numbers();
    CodeAt(m, x.ram, 6);
    WorkingCalm(e, x, 6, ls[n]);
    StoresFlags(x);
    var s := Pipeline.AgeDelay(x.core);
    y := Pipeline.Plain(s.(r := s.r[PC := Offset(s.r[PC], 4)]), Flagged(x), false);
    ApartAt(m, e.r[SP], 7);
    SameSize(m, x.ram);
    FlaggedKeeps(m, x, Address(HANDLER, 7));
    WorkingKept(e, x, y);
    Advances(thumb, x0, ls, n, x, 6, Meaning(Line(6)), s, Flagged(x));
  }

  lemma SameSize(m: Ram, m': Ram)
    requires SameCode(m, m')
    ensures |m'| == |m|
  {
    hide ReadWord, Address;
  }

  lemma StoresFlags(x: Pipeline.Plain)
    requires x.core.r[0] == IO
    ensures var s, i := Pipeline.AgeDelay(x.core), Meaning(Line(6));
            InBounds(i) && !StraysPc(i) && !i.Msr? && ExecInstruction(s, x.ram, i) == Next(s, Flagged(x))
  {
    Aging(x.core);
    assert Offset(IO, -8) == FLAGS;
    StoresHalf(Pipeline.AgeDelay(x.core), x.ram, 2, 0, -8);
    HalfStays(STRHI, 2, 0, -8);
    hide Offset, WriteHalf, ExecInstruction, Pipeline.AgeDelay;
  }

  lemma FlaggedKeeps(m: Ram, x: Pipeline.Plain, a: Word)
    requires |x.ram| == |m| && Index(m, a) != Index(m, FLAGS)
    ensures |Flagged(x)| == |m| && ReadWord(Flagged(x), a) == ReadWord(x.ram, a)
  {
    HalfKeeps(x.ram, FLAGS, x.core.r[2], a);
    hide WriteHalf, ReadWord;
  }

  lemma WorkingKept(e: Core, x: Pipeline.Plain, y: Pipeline.Plain)
    requires Working(e, x, 6)
    requires var s := Pipeline.AgeDelay(x.core);
             y == Pipeline.Plain(s.(r := s.r[PC := Offset(s.r[PC], 4)]), y.ram, false)
    ensures Working(e, y, 7) && y.core.r[0] == x.core.r[0]
  {
    Aging(x.core);
    NextWord(6);
    hide Offset, Pipeline.AgeDelay, Slot;
  }

  /** What the program's handler is called with: the I/O registers in r0, the return address,
      and its own address, from the word below the I/O registers, in PC. */
  ghost predicate Called(e: Core, y: Pipeline.Plain) {
    && y.core == e.(r := y.core.r, irqDelay := y.core.irqDelay) && !y.halted
    && (forall j :: 4 <= j < 12 ==> y.core.r[j] == e.r[j]) && y.core.r[SP] == Slot(e.r[SP], 0)
    && y.core.r[0] == IO && y.core.r[LR] == Address(HANDLER, 9)
    && y.core.r[PC] == Offset(AlignWord(LoadedWord(y.ram, 0x03FF_FFFC)), 8)
  }

  lemma CallLine(thumb: Pipeline.Exec, x0: Pipeline.Plain, ls: seq<Pipeline.Lines>, n: nat, e: Core, m: Ram,
                 x: Pipeline.Plain) returns (y: Pipeline.Plain)
    requires Reaches(thumb, x0, ls, n, x) && n < |ls| && !ls[n].halts && Working(e, x, CALL)
    requires Installed(m) && SameCode(m, x.ram) && x.core.r[0] == IO && x.core.r[LR] == Address(HANDLER, 9)
    ensures Reaches(thumb, x0, ls, n + 1, y) && Called(e, y) && y.ram == x.ram
  {
    var s, v := Pipeline.AgeDelay(x.core), LoadedWord(x.ram, 0x03FF_FFFC);
    y := Pipeline.Plain(With(s, PC, Offset(AlignWord(v), 8)), x.ram, false);
    CallsHere(x);
    CalledIs(e, x, y);
    WorkingCalm(e, x, 8, ls[n]);
    hide *;
    Numbers();
    CodeAt(m, x.ram, 8);
    InstructionEffect(thumb, x, HANDLER, 8, Meaning(Line(8)));
    StepNext(CpuExec(thumb), x, ls[n]);
    CarefulIf(thumb, x, ls[n]);
    LandsThere(s, v);
    ReachesNext(thumb, x0, ls, n, x, y);
  }

  lemma CallsHere(x: Pipeline.Plain)
    requires x.core.r[0] == IO
    ensures var s, i := Pipeline.AgeDelay(x.core), Meaning(Line(8));
            && InBounds(i) && !StraysPc(i) && !i.Msr?
            && ExecInstruction(s, x.ram, i) == Jump(With(s, PC, LoadedWord(x.ram, 0x03FF_FFFC)), x.ram)
  {
    Aging(x.core);
    assert Offset(IO, -4) == 0x03FF_FFFC;
    assert Line(8) == Single(LDRI, 15, 0, -4);
    assert Meaning(Single(LDRI, 15, 0, -4)) == Transfer(true, false, false, false, true, 0, 15, false, 4);
    LoadsPc(Pipeline.AgeDelay(x.core), x.ram);
    hide Offset, LoadedWord, ExecInstruction, Pipeline.AgeDelay, Meaning, Line;
  }

  lemma LandsThere(s: Core, v: Word)
    requires !s.cpsr.t
    ensures Pipeline.Land(With(s, PC, v)) == With(s, PC, Offset(AlignWord(v), 8))
  {
    hide Offset, AlignWord;
    assert s.r[PC := v][PC := Offset(AlignWord(v), 8)] == s.r[PC := Offset(AlignWord(v), 8)];
  }

  lemma CalledIs(e: Core, x: Pipeline.Plain, y: Pipeline.Plain)
    requires Working(e, x, CALL) && x.core.r[0] == IO && x.core.r[LR] == Address(HANDLER, 9)
    requires y == Pipeline.Plain(With(Pipeline.AgeDelay(x.core), PC,
                                      Offset(AlignWord(LoadedWord(x.ram, 0x03FF_FFFC)), 8)),
                                 x.ram, false)
    ensures Called(e, y) && !Pipeline.AgeDelay(x.core).cpsr.t
  {
    Aging(x.core);
    hide Offset, AlignWord, LoadedWord, Pipeline.AgeDelay, Slot, Address;
  }

  // ------------------------------------------------------------------ from the interrupt to the call

  /** The core at the handler's first line. */
  function EntryCore(x: Pipeline.Plain): Core {
    With(Pipeline.AgeDelay(TakeIrq(x.core, x.ram).core), PC, Offset(HANDLER, 8))
  }

  lemma EntryIs(x: Pipeline.Plain)
    requires x.core.mode != Irq
    ensures var e, t := EntryCore(x), TakeIrq(x.core, x.ram).core;
            && e == t.(r := e.r, irqDelay := e.irqDelay) && e.mode == Irq && !e.cpsr.t && e.cpsr.i
               && e.r[PC] == Offset(HANDLER, 8)
            && e.r[SP] == t.r[SP] == x.core.r13[Irq.Bank()]
            && (forall j :: 0 <= j < 15 ==> e.r[j] == t.r[j])
            && t.r[PC] == 0x20 && !t.cpsr.t && t.cpsr.i
  {
    TakenIs(x.core, x.ram);
    Aging(TakeIrq(x.core, x.ram).core);
    hide TakeIrq, Pipeline.AgeDelay, Offset;
  }

  lemma IrqMasked(s: Core, m: Ram, l: Pipeline.Lines)
    requires s.cpsr.i && !l.halts
    ensures Calm(Pipeline.Plain(s, m, false), l)
  {
  }

  lemma StartsAt(thumb: Pipeline.Exec, x: Pipeline.Plain, ls: seq<Pipeline.Lines>)
    ensures Reaches(thumb, x, ls, 0, x)
  {
    LeadsNowhere(thumb, x, x);
    hide Leads;
  }

  /** Up to the handler's first line. */
  lemma Enters(thumb: Pipeline.Exec, x: Pipeline.Plain, ls: seq<Pipeline.Lines>) returns (y: Pipeline.Plain)
    requires |ls| >= 2 && Pipeline.TakesIrq(x.core, ls[0]) && !ls[1].halts && x.core.mode != Irq && Installed(x.ram)
    ensures Reaches(thumb, x, ls, 2, y) && y == Pipeline.Plain(EntryCore(x), x.ram, false)
  {
    y := Pipeline.Plain(EntryCore(x), x.ram, false);
    hide *;
    EntryIs(x);
    var t := TakeIrq(x.core, x.ram).core;
    var x1 := Pipeline.Plain(t, x.ram, false);
    StartsAt(thumb, x, ls);
    Vectored(thumb, x, ls[0]);
    ReachesNext(thumb, x, ls, 0, x, x1);
    IrqMasked(t, x.ram, ls[1]);
    Branched(thumb, x1, ls[1]);
    EntryUnfolds(x);
    ReachesNext(thumb, x, ls, 1, x1, y);
  }

  lemma EntryUnfolds(x: Pipeline.Plain)
    ensures EntryCore(x) == With(Pipeline.AgeDelay(TakeIrq(x.core, x.ram).core), PC, Offset(HANDLER, 8))
  {
    hide TakeIrq, Pipeline.AgeDelay, Offset;
  }

  /** The lines that set registers before the flags are stored. */
  lemma Prepares(thumb: Pipeline.Exec, x0: Pipeline.Plain, ls: seq<Pipeline.Lines>, e: Core, m: Ram, x: Pipeline.Plain)
    returns (y: Pipeline.Plain)
    requires Reaches(thumb, x0, ls, 3, x) && |ls| == 11 && (forall i :: 1 <= i < 11 ==> !ls[i].halts)
            && Working(e, x, 1)
    requires Installed(m) && SameCode(m, x.ram)
    ensures Reaches(thumb, x0, ls, 8, y) && Working(e, y, 6) && y.ram == x.ram && y.core.r[0] == IO
  {
    hide *;
    var x1 := SetLine(thumb, x0, ls, 3, e, m, x, 1);
    var x2 := SetLine(thumb, x0, ls, 4, e, m, x1, 2);
    var x3 := SetLine(thumb, x0, ls, 5, e, m, x2, 3);
    var x4 := SetLine(thumb, x0, ls, 6, e, m, x3, 4);
    y := SetLine(thumb, x0, ls, 7, e, m, x4, 5);
  }

  /** The interrupt, the branch at its vector and lines 0 to 8: the program's handler is called. */
  lemma Calls(thumb: Pipeline.Exec, x: Pipeline.Plain, ls: seq<Pipeline.Lines>) returns (y: Pipeline.Plain)
    requires |ls| == 11 && Pipeline.TakesIrq(x.core, ls[0]) && forall i :: 1 <= i < 11 ==> !ls[i].halts
    requires x.core.mode != Irq && Installed(x.ram) && Blocks.Mirrors(x.ram) && Clear(x.ram, x.core.r13[Irq.Bank()])
    ensures Leads(thumb, x, ls, y) && Called(EntryCore(x), y) && SameCode(x.ram, y.ram)
    ensures SameStack(Pushed(EntryCore(x), x.ram), y.ram, EntryCore(x).r[SP])
  {
    hide *;
    var e, m := EntryCore(x), x.ram;
    EntryIs(x);
    var x3 := Begins(thumb, x, ls);
    var x4 := FlagLine(thumb, x, ls, 8, e, m, x3);
    FlaggedSame(m, x3, e);
    var x5 := SetLine(thumb, x, ls, 9, e, m, x4, 7);
    CallNumber();
    y := CallLine(thumb, x, ls, 10, e, m, x5);
    ReachesAll(thumb, x, ls, y);
  }

  lemma CallNumber()
    ensures CALL == 8 && SP == 13
  {
  }

  /** Up to line 6. */
  lemma Begins(thumb: Pipeline.Exec, x: Pipeline.Plain, ls: seq<Pipeline.Lines>) returns (y: Pipeline.Plain)
    requires |ls| == 11 && Pipeline.TakesIrq(x.core, ls[0]) && forall i :: 1 <= i < 11 ==> !ls[i].halts
    requires x.core.mode != Irq && Installed(x.ram) && Blocks.Mirrors(x.ram) && Clear(x.ram, x.core.r13[Irq.Bank()])
    ensures Reaches(thumb, x, ls, 8, y) && Working(EntryCore(x), y, 6) && y.core.r[0] == IO
    ensures y.ram == Pushed(EntryCore(x), x.ram) && SameCode(x.ram, y.ram)
    ensures Clear(x.ram, EntryCore(x).r[SP])
  {
    hide *;
    var e, m := EntryCore(x), x.ram;
    EntryIs(x);
    CallNumber();
    var x1 := Enters(thumb, x, ls);
    IrqMasked(e, m, ls[2]);
    var x2 := Saved(thumb, x, ls, 2, x1);
    CodeSame(m, x2.ram, e);
    y := Prepares(thumb, x, ls, e, m, x2);
  }

  lemma ReachesAll(thumb: Pipeline.Exec, x: Pipeline.Plain, ls: seq<Pipeline.Lines>, y: Pipeline.Plain)
    requires Reaches(thumb, x, ls, |ls|, y)
    ensures Leads(thumb, x, ls, y)
  {
    assert ls[..|ls|] == ls;
    hide Leads;
  }

  lemma FlaggedSame(m: Ram, x: Pipeline.Plain, e: Core)
    requires Clear(m, e.r[SP]) && SameCode(m, x.ram) && x.ram == Pushed(e, m)
    ensures SameCode(m, Flagged(x)) && SameStack(Pushed(e, m), Flagged(x), e.r[SP])
  {
    hide Pushed, ReadWord, Address, Index, Flagged, Slot;
    forall k | 0 <= k <= RETURN
      ensures ReadWord(Flagged(x), Address(HANDLER, k)) == ReadWord(m, Address(HANDLER, k))
    {
      FlaggedKeeps(m, x, Address(HANDLER, k));
    }
    FlaggedKeeps(m, x, Address(HANDLER, 0));
    forall j | 0 <= j < 6
      ensures ReadWord(Flagged(x), Slot(e.r[SP], j)) == ReadWord(Pushed(e, m), Slot(e.r[SP], j))
    {
      FlaggedKeeps(m, x, Slot(e.r[SP], j));
    }
  }

  // ------------------------------------------------------------------ what the program's handler owes

  /** Registers 0 to 3 and 12, and the link register of IRQ mode. */
  predicate Scratch(c: Cell) { (c.bank == 0 && (c.reg < 4 || c.reg == 12)) || c == Cell(Irq.Bank(), LR) }

  /** The program's handler, called in `y`, has come back to where it was told in `z`, with all
      registers of all modes but the scratch ones, the saved status, the six words on the stack
      and the BIOS as they were. */
  ghost predicate Obeys(y: Pipeline.Plain, z: Pipeline.Plain) {
    && z.core.mode == Irq && !z.core.cpsr.t && !z.halted && z.core.r[PC] == Offset(y.core.r[LR], 8)
    && z.core.spsr[Irq.Bank()] == y.core.spsr[Irq.Bank()]
    && (forall c :: IsCell(c) && c.reg != PC && !Scratch(c) ==> At(z.core, c) == At(y.core, c))
    && SameCode(y.ram, z.ram) && SameStack(y.ram, z.ram, Offset(y.core.r[SP], 24))
  }

  lemma CalledCells(e: Core, y: Pipeline.Plain, c: Cell)
    requires Called(e, y) && e.mode == Irq && IsCell(c) && c.reg != PC && !Scratch(c) && c != Cell(Irq.Bank(), SP)
    ensures At(y.core, c) == At(e, c)
  {
    hide Offset, Slot, Address, LoadedWord;
  }

  lemma EntryCells(x: Pipeline.Plain, c: Cell)
    requires x.core.mode != Irq && IsCell(c) && c.reg != PC
    ensures At(EntryCore(x), c) == At(TakeIrq(x.core, x.ram).core, c)
  {
    EntryIs(x);
    hide EntryCore, TakeIrq, Offset;
  }

  /** Line 9 loads what line 0 stored. */
  lemma Reloads(e: Core, m: Ram, a: Core, m': Ram)
    requires Blocks.Mirrors(m) && |m'| == |m| && e.mode == a.mode == Irq && a.r[SP] == Slot(e.r[SP], 0)
    requires SameStack(Pushed(e, m), m', e.r[SP])
    ensures var b := Push(ListBits(SAVED));
            b.Valid() && var o := ExecBlock(a, m', Blocks.Opposite(b));
            && o.Next? && o.ram == m' && o.core.mode == Irq && o.core.r[SP] == e.r[SP]
            && (forall i :: 0 <= i < 16 && (i < 4 || i == 12 || i == LR) ==> o.core.r[i] == e.r[i])
            && forall c :: IsCell(c) && !Scratch(c) && c != Cell(Irq.Bank(), SP) ==> At(o.core, c) == At(a, c)
  {
    SavedSaves();
    var list, b := ListBits(SAVED), Push(ListBits(SAVED));
    PushPlaces(e.r[SP], list);
    Pushes(e, m, list);
    var o := ExecBlock(e, m, b);
    hide ListBits, ExecBlock, StoreFrom, ReadWord, Slot, Below, Blocks.Place, Blocks.Mirrors, At, Count, Start, Final;
    forall i | 0 <= i < 16 && b.list[i]
      ensures ReadWord(m', Blocks.Place(e.r[SP], b, i)) == ReadWord(o.ram, Blocks.Place(e.r[SP], b, i))
    {
      PlaceIs(e.r[SP], list, i);
    }
    Blocks.StmThenLdm(e, m, b, a, m');
    var back := ExecBlock(a, m', Blocks.Opposite(b));
    assert TransferMode(e, b) == Irq;
    forall i | 0 <= i < 16 && (i < 4 || i == 12 || i == LR)
      ensures back.core.r[i] == e.r[i]
    {
      assert b.list[i];
      Blocks.VisibleBase(back.core, i);
      Blocks.VisibleBase(e, i);
    }
    forall c | IsCell(c) && !Scratch(c) && c != Cell(Irq.Bank(), SP)
      ensures At(back.core, c) == At(a, c)
    {
      assert !Blocks.Reached(e, b, c);
    }
  }

  lemma BlockKeepsStatus(s: Core, m: Ram, b: Block)
    requires b.Valid() && !b.list[PC]
    ensures var o := ExecBlock(s, m, b); o.core.spsr == s.spsr && o.core.cpsr == s.cpsr
  {
    var t := SwitchMode(s, TransferMode(s, b));
    SwitchKeepsSpsr(s, TransferMode(s, b));
    SwitchKeepsSpsr(if b.l then t.(r := LoadFrom(t.r, m, b.list, Start(s.r[b.rn], b), 0)) else t, s.mode);
    hide SwitchMode, LoadFrom, StoreFrom, Start, Final, Count;
  }

  /** What line 9 leaves. */
  function Popped(z: Pipeline.Plain): (o: Outcome)
  {
    SavedValid();
    ExecBlock(Pipeline.AgeDelay(z.core), z.ram, Blocks.Opposite(Push(ListBits(SAVED))))
  }

  lemma PoppedKeeps(e: Core, m: Ram, z: Pipeline.Plain)
    requires Blocks.Mirrors(m) && |z.ram| == |m| && e.mode == z.core.mode == Irq && z.core.r[SP] == Slot(e.r[SP], 0)
    requires SameStack(Pushed(e, m), z.ram, e.r[SP])
    ensures var o := Popped(z);
            && o.Next? && o.ram == z.ram && o.core.mode == Irq && o.core.cpsr == z.core.cpsr
               && o.core.spsr == z.core.spsr
            && o.core.r[PC] == z.core.r[PC]
            && (forall i :: 0 <= i < 16 && (i < 4 || i == 12 || i == LR) ==> o.core.r[i] == e.r[i])
            && forall c :: IsCell(c) && !Scratch(c) && c != Cell(Irq.Bank(), SP) ==> At(o.core, c) == At(z.core, c)
  {
    var a, b := Pipeline.AgeDelay(z.core), Push(ListBits(SAVED));
    SavedValid();
    Aging(z.core);
    Reloads(e, m, a, z.ram);
    BlockKeepsStatus(a, z.ram, Blocks.Opposite(b));
    var o := ExecBlock(a, z.ram, Blocks.Opposite(b));
    hide ListBits, ExecBlock, Pushed, Slot, Pipeline.AgeDelay, Blocks.Mirrors, SameStack;
    assert At(o.core, Cell(0, PC)) == At(a, Cell(0, PC));
    forall c | IsCell(c) && !Scratch(c) && c != Cell(Irq.Bank(), SP)
      ensures At(o.core, c) == At(z.core, c)
    {
      AtIgnoresStatus(z.core, a, c);
    }
  }

  lemma ObeyedIs(x: Pipeline.Plain, y: Pipeline.Plain, z: Pipeline.Plain)
    requires x.core.mode != Irq && Called(EntryCore(x), y) && Obeys(y, z) && SameCode(x.ram, y.ram)
    requires SameStack(Pushed(EntryCore(x), x.ram), y.ram, EntryCore(x).r[SP])
    ensures var e := EntryCore(x);
            && |z.ram| == |x.ram| && SameCode(x.ram, z.ram) && SameStack(Pushed(e, x.ram), z.ram, e.r[SP])
            && z.core.r[PC] == Offset(HANDLER, 4 * 9 + 8) && z.core.r[SP] == Slot(e.r[SP], 0)
               && e.mode == z.core.mode == Irq
            && z.core.spsr[Irq.Bank()] == TakeIrq(x.core, x.ram).core.spsr[Irq.Bank()]
            && z.core.r[SP] == y.core.r[SP]
  {
    EntryIs(x);
    var e := EntryCore(x);
    BackAddresses(e.r[SP]);
    SameTwice(x.ram, y.ram, z.ram);
    StackTwice(Pushed(e, x.ram), y.ram, z.ram, e.r[SP]);
    StackPointer(y.core, z.core);
    SameSize(x.ram, z.ram);
    hide EntryCore, TakeIrq, Pushed, Offset, ReadWord, LoadedWord, Slot, Address, SameStack, SameCode, At, IsCell,
         Scratch;
  }

  lemma BackAddresses(sp: Word)
    ensures Offset(Slot(sp, 0), 24) == sp && Offset(Address(HANDLER, 9), 8) == Offset(HANDLER, 4 * 9 + 8)
  {
    OffsetTwice(HANDLER, 36, 8);
    OffsetTwice(sp, -24, 24);
    assert Offset(sp, 0) == sp;
    hide Offset;
  }

  lemma SameTwice(m: Ram, m': Ram, m'': Ram)
    requires SameCode(m, m') && SameCode(m', m'')
    ensures SameCode(m, m'')
  {
    hide ReadWord, Address;
  }

  lemma StackTwice(m: Ram, m': Ram, m'': Ram, sp: Word)
    requires SameStack(m, m', sp) && SameStack(m', m'', sp)
    ensures SameStack(m, m'', sp)
  {
    hide ReadWord, Slot;
  }

  lemma StackPointer(y: Core, z: Core)
    requires y.mode == z.mode == Irq && forall c :: IsCell(c) && c.reg != PC && !Scratch(c) ==> At(z, c) == At(y, c)
    ensures z.r[SP] == y.r[SP]
  {
    assert At(z, Cell(Irq.Bank(), SP)) == At(y, Cell(Irq.Bank(), SP));
  }

  /** One of the program's cells after line 9. */
  lemma RestoredCell(x: Pipeline.Plain, y: Pipeline.Plain, z: Pipeline.Plain, c: Cell)
    requires x.core.mode != Irq && Called(EntryCore(x), y) && Obeys(y, z)
    requires IsCell(c) && c.reg != PC && !Own(c, Irq)
    requires var o := Popped(z);
             && o.core.mode == EntryCore(x).mode == Irq
             && (forall i :: 0 <= i < 16 && (i < 4 || i == 12 || i == LR) ==> o.core.r[i] == EntryCore(x).r[i])
             && forall c :: IsCell(c) && !Scratch(c) && c != Cell(Irq.Bank(), SP) ==> At(o.core, c) == At(z.core, c)
    ensures At(Popped(z).core, c) == At(TakeIrq(x.core, x.ram).core, c)
  {
    EntryCells(x, c);
    hide EntryCore, TakeIrq, Popped;
    if !Scratch(c) {
      CalledCells(EntryCore(x), y, c);
      hide Called, SameCode, SameStack;
    }
  }

  /** After line 9 the core is what an exception's handler has to hand back. */
  lemma Restored(x: Pipeline.Plain, y: Pipeline.Plain, z: Pipeline.Plain)
    requires x.core.mode != Irq && Called(EntryCore(x), y) && Obeys(y, z) && Blocks.Mirrors(x.ram)
            && SameCode(x.ram, y.ram)
    requires SameStack(Pushed(EntryCore(x), x.ram), y.ram, EntryCore(x).r[SP])
    ensures var o := Popped(z);
            && o.Next? && o.ram == z.ram && o.core.cpsr == z.core.cpsr && o.core.r[PC] == z.core.r[PC]
            && Preserves(TakeIrq(x.core, x.ram).core, o.core, Irq)
  {
    ObeyedIs(x, y, z);
    PoppedKeeps(EntryCore(x), x.ram, z);
    EntryIs(x);
    hide EntryCore, TakeIrq, Popped, Pushed, At, IsCell, Scratch, Own, Called, Obeys, SameCode, SameStack,
         Blocks.Mirrors, Slot, Offset;
    forall c | IsCell(c) && c.reg != PC && !Own(c, Irq)
      ensures At(Popped(z).core, c) == At(TakeIrq(x.core, x.ram).core, c)
    {
      RestoredCell(x, y, z, c);
    }
  }

  lemma PreservesPc(t: Core, h: Core, pc: Word, delay: nat)
    requires Preserves(t, h, Irq)
    ensures Preserves(t, h.(r := h.r[PC := pc], irqDelay := delay), Irq)
  {
    var h1 := h.(r := h.r[PC := pc]);
    var h2 := h1.(irqDelay := delay);
    forall c | IsCell(c) && c.reg != PC && !Own(c, Irq)
      ensures At(h2, c) == At(t, c)
    {
      WriteChangesOneCell(h, PC, pc, c);
      AtIgnoresStatus(h1, h2, c);
    }
  }

  // ------------------------------------------------------------------ returning

  /** Lines 9 and 10 are not interrupted. */
  predicate Unhindered(z: Pipeline.Plain, js: seq<Pipeline.Lines>) {
    |js| == 2 && forall j :: 0 <= j < 2 ==> !js[j].halts && (z.core.cpsr.i || !js[j].pending)
  }

  lemma PopMeant()
    ensures InBounds(Meaning(Line(9))) && !StraysPc(Meaning(Line(9))) && !Meaning(Line(9)).Msr?
  {
    hide ListBits, Meaning;
    SavedValid();
    PushPlaces(0, ListBits(SAVED));
  }

  lemma ReturnMeant()
    ensures RETURN_FROM_IRQ.Valid() && Meaning(Line(RETURN)) == Data(RETURN_FROM_IRQ)
  {
  }

  lemma PoppedIs(z: Pipeline.Plain)
    ensures InBounds(Meaning(Line(9))) && ExecInstruction(Pipeline.AgeDelay(z.core), z.ram, Meaning(Line(9)))
            == Popped(z)
  {
    SavedValid();
    PushPlaces(0, ListBits(SAVED));
    BlockExecutes(Pipeline.AgeDelay(z.core), z.ram, Blocks.Opposite(Push(ListBits(SAVED))));
    hide ListBits, ExecBlock, ExecInstruction, Pipeline.AgeDelay;
  }

  /** Line 9, to the core that the return instruction sees. */
  lemma PopLine(thumb: Pipeline.Exec, x: Pipeline.Plain, y: Pipeline.Plain, z: Pipeline.Plain, js: seq<Pipeline.Lines>)
    returns (h: Pipeline.Plain)
    requires x.core.mode != Irq && Called(EntryCore(x), y) && Obeys(y, z) && Blocks.Mirrors(x.ram)
            && SameCode(x.ram, y.ram)
    requires SameStack(Pushed(EntryCore(x), x.ram), y.ram, EntryCore(x).r[SP])
    requires Installed(x.ram) && Unhindered(z, js)
    ensures Reaches(thumb, z, js, 1, h) && h.ram == z.ram && !h.halted && !h.core.cpsr.t && h.core.cpsr == z.core.cpsr
    ensures h.core.r[PC] == Offset(HANDLER, 4 * RETURN + 8) && Preserves(TakeIrq(x.core, x.ram).core, h.core, Irq)
  {
    hide *;
    Numbers();
    Restored(x, y, z);
    ObeyedIs(x, y, z);
    var o := Popped(z);
    h := Pipeline.Plain(o.core.(r := o.core.r[PC := Offset(o.core.r[PC], 4)]), z.ram, false);
    CalmBack(y, z, js);
    NextWord(9);
    CodeAt(x.ram, z.ram, 9);
    PopMeant();
    PoppedIs(z);
    StartsAt(thumb, z, js);
    Advances(thumb, z, js, 0, z, 9, Meaning(Line(9)), o.core, z.ram);
    PreservesPc(TakeIrq(x.core, x.ram).core, o.core, Offset(o.core.r[PC], 4), o.core.irqDelay);
  }

  lemma CalmBack(y: Pipeline.Plain, z: Pipeline.Plain, js: seq<Pipeline.Lines>)
    requires Obeys(y, z) && Unhindered(z, js)
    ensures |js| == 2 && Calm(z, js[0]) && !z.core.cpsr.t && !z.halted
    ensures forall h: Pipeline.Plain :: !h.halted && h.core.cpsr == z.core.cpsr ==> Calm(h, js[1])
  {
    hide SameCode, SameStack, At, Offset, IsCell, Scratch;
  }

  /** The program as it was interrupted. */
  ghost predicate Resumed(s: Core, b: Core) {
    && b.r == s.r && b.cpsr == s.cpsr && b.mode == s.mode
    && forall c :: IsCell(c) && !Own(c, Irq) ==> At(b, c) == At(s, c)
  }

  /** Line 10. */
  lemma ReturnLine(thumb: Pipeline.Exec, x: Pipeline.Plain, p: Pipe, h: Pipeline.Plain, l: Pipeline.Lines)
    returns (b: Pipeline.Plain)
    requires x.core.cpsr.low == 0 && x.core.mode != Irq && PipeHolds(x.core, p, x.ram) && PipeHolds(x.core, p, h.ram)
    requires Preserves(TakeIrq(x.core, x.ram).core, h.core, Irq) && Calm(h, l) && !h.core.cpsr.t
    requires h.core.r[PC] == Offset(HANDLER, 4 * RETURN + 8)
    requires Decode(ReadWord(h.ram, Address(HANDLER, RETURN))) == (ALWAYS, Data(RETURN_FROM_IRQ))
            && RETURN_FROM_IRQ.Valid()
    ensures Careful(thumb, h, l) && Pipeline.PlainStep(CpuExec(thumb), h, l) == b
    ensures Resumed(x.core, b.core) && b.ram == h.ram && !b.halted
  {
    var a := Pipeline.AgeDelay(h.core);
    Aging(h.core);
    PreservesPc(TakeIrq(x.core, x.ram).core, h.core, h.core.r[PC], a.irqDelay);
    assert a == h.core.(r := h.core.r[PC := h.core.r[PC]], irqDelay := a.irqDelay);
    IrqIsTransparent(x.core, p, x.ram, a, h.ram);
    var o := ExecDataProcessing(a, h.ram, RETURN_FROM_IRQ);
    Pipeline.JumpRefines(o.core, h.ram);
    b := Pipeline.Plain(Pipeline.Land(o.core), h.ram, false);
    assert Resumed(x.core, b.core);
    hide *;
    InstructionEffect(thumb, h, HANDLER, RETURN, Data(RETURN_FROM_IRQ));
    DataExecutes(a, h.ram, RETURN_FROM_IRQ);
    StepNext(CpuExec(thumb), h, l);
    CarefulIf(thumb, h, l);
  }

  lemma Returns(thumb: Pipeline.Exec, x: Pipeline.Plain, p: Pipe, y: Pipeline.Plain, z: Pipeline.Plain,
                js: seq<Pipeline.Lines>)
    returns (b: Pipeline.Plain)
    requires x.core.mode != Irq && Called(EntryCore(x), y) && Obeys(y, z) && Blocks.Mirrors(x.ram)
            && SameCode(x.ram, y.ram)
    requires SameStack(Pushed(EntryCore(x), x.ram), y.ram, EntryCore(x).r[SP])
    requires Installed(x.ram) && Unhindered(z, js)
    requires x.core.cpsr.low == 0 && PipeHolds(x.core, p, x.ram) && PipeHolds(x.core, p, z.ram)
    ensures Leads(thumb, z, js, b) && Resumed(x.core, b.core) && b.ram == z.ram && !b.halted
  {
    hide *;
    Numbers();
    CalmBack(y, z, js);
    var h := PopLine(thumb, x, y, z, js);
    ObeyedIs(x, y, z);
    CodeAt(x.ram, z.ram, RETURN);
    ReturnMeant();
    b := ReturnLine(thumb, x, p, h, js[1]);
    ReachesNext(thumb, z, js, 1, h, b);
    ReachesAll(thumb, z, js, b);
  }

  // ------------------------------------------------------------------ the whole interrupt

  /** An interrupt is taken in `ls[0]`, and the BIOS calls the program's handler in ten more
      steps, in `y`.  Whatever that does in however many steps `ks`, if it keeps to its part and
      leaves the interrupted code alone, two steps later the interrupted program is back: all
      registers of all modes but the interrupt's own, status, mode and pipe are as they were. */
  lemma IrqServed(thumb: Pipeline.Exec, x: Pipeline.Machine, ls: seq<Pipeline.Lines>, y: Pipeline.Plain,
                  ks: seq<Pipeline.Lines>, z: Pipeline.Plain, js: seq<Pipeline.Lines>)
    requires Pipeline.Holds(x) && x.cpu.core.mode != Irq && x.cpu.core.cpsr.low == 0
    requires |ls| == 11 && Pipeline.TakesIrq(x.cpu.core, ls[0]) && forall i :: 1 <= i < 11 ==> !ls[i].halts
    requires Installed(x.ram) && Blocks.Mirrors(x.ram) && Clear(x.ram, x.cpu.core.r13[Irq.Bank()])
    requires y == Pipeline.PlainRun(CpuExec(thumb), Pipeline.Unpiped(x), ls)
    requires Leads(thumb, y, ks, z) && Obeys(y, z) && Unhindered(z, js) && PipeHolds(x.cpu.core, x.cpu.pipe, z.ram)
    ensures Called(EntryCore(Pipeline.Unpiped(x)), y)
    ensures var b := Pipeline.Run(CpuExec(thumb), x, ls + ks + js);
            Resumed(x.cpu.core, b.cpu.core) && b.cpu.pipe == x.cpu.pipe && b.ram == z.ram && !b.halted
  {
    var u := Pipeline.Unpiped(x);
    assert u.core == x.cpu.core && u.ram == x.ram && PipeHolds(u.core, x.cpu.pipe, u.ram);
    hide *;
    var y' := Calls(thumb, u, ls);
    LeadsEnd(thumb, u, ls, y');
    var b := Returns(thumb, u, x.cpu.pipe, y, z, js);
    LeadsOn(thumb, u, ls, y, ks, z);
    LeadsOn(thumb, u, ls + ks, z, js, b);
    Piped(thumb, x, ls + ks + js, b);
    SamePipe(x, Pipeline.Run(CpuExec(thumb), x, ls + ks + js));
  }

  lemma LeadsEnd(thumb: Pipeline.Exec, x: Pipeline.Plain, ls: seq<Pipeline.Lines>, y: Pipeline.Plain)
    requires Leads(thumb, x, ls, y)
    ensures Pipeline.PlainRun(CpuExec(thumb), x, ls) == y
  {
    hide Pipeline.PlainRun, RunCareful, CpuExec;
  }

  /** What the machine without a pipe reaches, the CPU reaches. */
  lemma Piped(thumb: Pipeline.Exec, x: Pipeline.Machine, ls: seq<Pipeline.Lines>, y: Pipeline.Plain)
    requires Pipeline.Holds(x) && Leads(thumb, Pipeline.Unpiped(x), ls, y)
    ensures var b := Pipeline.Run(CpuExec(thumb), x, ls);
            Pipeline.Holds(b) && b.cpu.core == y.core && b.ram == y.ram && b.halted == y.halted
  {
    hide Pipeline.PlainRun, Pipeline.Run, RunCareful, CpuExec, Pipeline.Holds;
    ArmRunRefines(thumb, x, ls);
  }

  lemma SamePipe(x: Pipeline.Machine, b: Pipeline.Machine)
    requires PipeHolds(x.cpu.core, x.cpu.pipe, b.ram) && Pipeline.Holds(b) && Resumed(x.cpu.core, b.cpu.core)
    ensures b.cpu.pipe == x.cpu.pipe
  {
    hide CpuState.Code, Offset, At;
  }
}
