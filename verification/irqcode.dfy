/// The interrupt handler of the BIOS as machine code: what each of its lines does.
module IrqCode {
  import opened Options
  import opened Arithmetic
  import opened Alu
  import opened Shifter
  import opened CpuState
  import opened Arm
  import opened Transfers
  import opened Encoding
  import opened Dispatch
  import opened Stepping

  /** Where the handler stands, and the I/O registers. */
  const HANDLER: Word := 0x128
  const IO: Word := 0x0400_0000

  /** Lines 0 to 8 call the program's handler; 9 and 10 return from it. */
  const CALL := 8
  const RETURN := 10

  /** Registers 0 to 3, 12 and 14. */
  const SAVED: Half := 0x500F

  function Line(k: nat): Op
    requires k <= RETURN
  {
    match k
    case 0 => Multiple(STMFD, 13, SAVED)
    case 1 => RotImm(MOV, 0, 0, IO)
    case 2 => RotImm(ADD, 12, 0, 0x200)
    case 3 => Op.Halfword(LDRHI, 1, 12, 2)
    case 4 => Op.Halfword(LDRHI, 2, 0, -8)
    case 5 => Register(ORRR, 2, 2, 1)
    case 6 => Op.Halfword(STRHI, 2, 0, -8)
    case 7 => RotImm(ADD, 14, 15, 0)
    case 8 => Single(LDRI, 15, 0, -4)
    case 9 => Multiple(LDMFD, 13, SAVED)
    case _ => PlainImm(SUBS, 15, 14, 4)
  }

  // ------------------------------------------------------------------ the words

  lemma LinesInRange(k: nat)
    requires k <= RETURN
    ensures InRange(Line(k)) && Encode(Line(k), ALWAYS).Some?
  {
    Rotations();
    hide FirstRotation, Unrotated, Word4;
  }

  /** The immediates are rotated bytes. */
  lemma Rotations()
    ensures FirstRotation(IO, 0).Some? && FirstRotation(0x200, 0).Some? && FirstRotation(0, 0).Some?
  {
    hide RotateRight, FirstRotation, Unrotated;
    RotationFound(IO, 0);
    RotationFound(0x200, 0);
    RotationFound(0, 0);
    RotatedOne();
    RotatedTwo();
    RotatedNot(0);
    var one: Byte, two: Byte, none: Byte := 1, 2, 0;
    assert RotateRight(one, 2 * 3) == IO && RotateRight(two, 2 * 12) == 0x200 && RotateRight(none, 2 * 0) == 0;
  }

  lemma RotatedOne()
    ensures RotateRight(1, 6) == IO
  {
    assert Pow2(6) == 64;
    Pow2Add(13, 13);
    assert Pow2(13) == 0x2000;
  }

  lemma RotatedTwo()
    ensures RotateRight(2, 24) == 0x200
  {
    assert Pow2(8) == 256;
    Pow2Add(12, 12);
    assert Pow2(12) == 0x1000;
  }

  /** The words of the handler, and the branch to it at the interrupt vector. */
  ghost predicate Installed(m: Ram) {
    && (forall k :: 0 <= k <= RETURN ==>
          InRange(Line(k)) && Encode(Line(k), ALWAYS) == Some(ReadWord(m, Address(HANDLER, k))))
    && Decode(ReadWord(m, 0x18)) == (ALWAYS, Branch(false, 66))
  }

  lemma Decoded(m: Ram, k: nat)
    requires Installed(m) && k <= RETURN
    ensures InRange(Line(k)) && Decode(ReadWord(m, Address(HANDLER, k))) == (ALWAYS, Meaning(Line(k)))
  {
    DecodesAll(Line(k), ALWAYS);
    hide Line, Encode, Decode, Meaning, ReadWord, Address;
  }

  // ------------------------------------------------------------------ what the lines do

  /** The core with register `rd` set. */
  function With(s: Core, rd: nat, v: Word): Core
    requires rd < 16
  {
    s.(r := s.r[rd := v])
  }

  lemma ImmediateOf(k: Rotated, rd: Nibble, rn: Nibble, imm: Word)
    requires FirstRotation(imm, 0).Some?
    ensures var i := Meaning(RotImm(k, rd, rn, imm)); i.Data? && i.data.Valid() && HasValue(i, imm)
  {
    RotationFound(imm, 0);
    ImmediateValue(RotImm(k, rd, rn, imm));
    hide RotateRight, FirstRotation, Unrotated;
  }

  lemma ValueOf(s: Core, d: DataProcessing, imm: Word)
    requires d.Valid() && HasValue(Data(d), imm)
    ensures Operand2(s, d).0 == imm
  {
    if d.op2.rotate == 0 { RotatedNot(d.op2.imm); }
    hide RotateRight;
  }

  lemma Moves(s: Core, m: Ram, rd: Nibble, imm: Word)
    requires FirstRotation(imm, 0).Some? && rd != PC
    ensures var i := Meaning(RotImm(MOV, rd, 0, imm));
            InBounds(i) && ExecInstruction(s, m, i) == Next(With(s, rd, imm), m)
  {
    ImmediateOf(MOV, rd, 0, imm);
    ValueOf(s, Meaning(RotImm(MOV, rd, 0, imm)).data, imm);
    hide Operand2, FirstRotation, Unrotated;
  }

  lemma Adds(s: Core, m: Ram, rd: Nibble, rn: Nibble, imm: Word)
    requires FirstRotation(imm, 0).Some? && rd != PC
    ensures var i := Meaning(RotImm(ADD, rd, rn, imm));
            InBounds(i) && ExecInstruction(s, m, i) == Next(With(s, rd, Offset(s.r[rn], imm)), m)
  {
    ImmediateOf(ADD, rd, rn, imm);
    ValueOf(s, Meaning(RotImm(ADD, rd, rn, imm)).data, imm);
    Wraps(s.cpsr, s.r[rn], imm);
    hide Operand2, FirstRotation, Unrotated, Offset, Alu.Adds;
  }

  lemma Wraps(p: Psr, a: Word, b: Word)
    ensures Alu.Adds(p, a, b).0 == Offset(a, b)
  {
  }

  lemma Joins(s: Core, m: Ram)
    ensures var i := Meaning(Register(ORRR, 2, 2, 1));
            InBounds(i) && ExecInstruction(s, m, i) == Next(With(s, 2, Or(s.r[2], s.r[1])), m)
  {
    hide Or;
  }

  lemma LoadsHalf(s: Core, m: Ram, rd: Nibble, rn: Nibble, off: int)
    requires rd != PC && -0x100 < off < 0x100
    ensures var i := Meaning(Op.Halfword(LDRHI, rd, rn, off));
            InBounds(i) && ExecInstruction(s, m, i) == Next(With(s, rd, ReadHalf(m, Offset(s.r[rn], off))), m)
  {
    hide ReadHalf, Offset;
  }

  lemma StoresHalf(s: Core, m: Ram, rd: Nibble, rn: Nibble, off: int)
    requires -0x100 < off < 0x100
    ensures var i := Meaning(Op.Halfword(STRHI, rd, rn, off));
            InBounds(i) && ExecInstruction(s, m, i) == Next(s, WriteHalf(m, Offset(s.r[rn], off), s.r[rd]))
  {
    hide WriteHalf, Offset;
  }

  lemma LoadsPc(s: Core, m: Ram)
    ensures var i := Meaning(Single(LDRI, 15, 0, -4));
            InBounds(i) && ExecInstruction(s, m, i) == Jump(With(s, PC, LoadedWord(m, Offset(s.r[0], -4))), m)
  {
    hide LoadedWord, Offset;
  }

  /** A halfword is stored in its word alone. */
  lemma HalfKeeps(m: Ram, a: Word, v: Word, b: Word)
    requires Index(m, b) != Index(m, a)
    ensures |WriteHalf(m, a, v)| == |m| && ReadWord(WriteHalf(m, a, v), b) == ReadWord(m, b)
  {
  }

  /** Lines 1 to 5 and 7: what each sets. */
  lemma LineSets(s: Core, m: Ram, k: nat) returns (rd: nat, v: Word)
    requires 1 <= k <= 7 && k != 6
    ensures rd < 4 || rd == 12 || rd == LR
    ensures var i := Meaning(Line(k));
            InBounds(i) && !StraysPc(i) && !i.Msr? && ExecInstruction(s, m, i) == Next(With(s, rd, v), m)
    ensures (k == 1 ==> rd == 0 && v == IO) && (k > 1 ==> rd != 0) && (k == 7 ==> rd == LR && v == Offset(s.r[PC], 0))
  {
    Rotations();
    hide FirstRotation, ExecInstruction, Meaning;
    match k
    case 1 =>
      Moves(s, m, 0, IO);
      ImmediateOf(MOV, 0, 0, IO);
      rd, v := 0, IO;
    case 2 =>
      Adds(s, m, 12, 0, 0x200);
      ImmediateOf(ADD, 12, 0, 0x200);
      rd, v := 12, Offset(s.r[0], 0x200);
    case 3 =>
      LoadsHalf(s, m, 1, 12, 2);
      HalfStays(LDRHI, 1, 12, 2);
      rd, v := 1, ReadHalf(m, Offset(s.r[12], 2));
    case 4 =>
      LoadsHalf(s, m, 2, 0, -8);
      HalfStays(LDRHI, 2, 0, -8);
      rd, v := 2, ReadHalf(m, Offset(s.r[0], -8));
    case 5 =>
      Joins(s, m);
      JoinStays();
      rd, v := 2, Or(s.r[2], s.r[1]);
    case _ =>
      Adds(s, m, 14, 15, 0);
      ImmediateOf(ADD, 14, 15, 0);
      rd, v := 14, Offset(s.r[15], 0);
  }

  lemma HalfStays(k: HalfAccess, rd: Nibble, rn: Nibble, off: int)
    requires -0x100 < off < 0x100 && rn != PC
    ensures var i := Meaning(Op.Halfword(k, rd, rn, off)); !StraysPc(i) && !i.Msr?
  {
  }

  lemma JoinStays()
    ensures Meaning(Register(ORRR, 2, 2, 1)).Data?
  {
  }
}
