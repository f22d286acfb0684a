/// The remaining ARM instructions: single transfers, swaps, multiplies and status
/// register transfers (ARM DDI 0100, sections A4.1 and A5.2 to A5.3).
module Transfers {
  import opened Arithmetic
  import opened Alu
  import opened Shifter
  import opened CpuState
  import opened Arm

  // ------------------------------------------------------------------ bytes and halfwords

  /** A word from its bytes, the lowest first. */
  function FourBytes(b0: Byte, b1: Byte, b2: Byte, b3: Byte): Word { b0 + 0x100 * b1 + 0x1_0000 * b2 + 0x100_0000 * b3 }

  function ByteOf(w: Word, i: nat): Byte {
    if i == 0 then w % 0x100 else if i == 1 then w / 0x100 % 0x100 else if i == 2 then w / 0x1_0000 % 0x100
        else w / 0x100_0000
  }

  function WithByte(w: Word, i: nat, v: Byte): Word {
    FourBytes(if i == 0 then v else ByteOf(w, 0), if i == 1 then v else ByteOf(w, 1),
              if i == 2 then v else ByteOf(w, 2), if i == 3 then v else ByteOf(w, 3))
  }

  function ReadByte(m: Ram, a: Word): Byte { ByteOf(ReadWord(m, a), a % 4) }

  function WriteByte(m: Ram, a: Word, v: Word): Ram {
    WriteWord(m, a, WithByte(ReadWord(m, a), a % 4, v % 0x100))
  }

  function WriteHalf(m: Ram, a: Word, v: Word): Ram {
    var low := v % 0x1_0000;
    var w := ReadWord(m, a);
    WriteWord(m, a, if a % 4 < 2 then w / 0x1_0000 * 0x1_0000 + low else low * 0x1_0000 + w % 0x1_0000)
  }

  lemma BytesOf(b0: Byte, b1: Byte, b2: Byte, b3: Byte)
    ensures var w := FourBytes(b0, b1, b2, b3);
            ByteOf(w, 0) == b0 && ByteOf(w, 1) == b1 && ByteOf(w, 2) == b2 && ByteOf(w, 3) == b3
  {
    var w := FourBytes(b0, b1, b2, b3);
    QuotientIs(w, 0x100, b1 + 0x100 * b2 + 0x1_0000 * b3, b0);
    QuotientIs(w, 0x1_0000, b2 + 0x100 * b3, b0 + 0x100 * b1);
    QuotientIs(w, 0x100_0000, b3, b0 + 0x100 * b1 + 0x1_0000 * b2);
    QuotientIs(b1 + 0x100 * b2 + 0x1_0000 * b3, 0x100, b2 + 0x100 * b3, b1);
    QuotientIs(b2 + 0x100 * b3, 0x100, b3, b2);
  }

  /** A byte written is read back, and the other bytes of its word are kept. */
  lemma ByteRoundTrip(m: Ram, a: Word, v: Word, b: Word)
    requires b / 4 == a / 4
    ensures ReadByte(WriteByte(m, a, v), b) == if b == a then v % 0x100 else ReadByte(m, b)
  {
    var w, i, x := ReadWord(m, a), a % 4, v % 0x100;
    BytesOf(if i == 0 then x else ByteOf(w, 0), if i == 1 then x else ByteOf(w, 1),
            if i == 2 then x else ByteOf(w, 2), if i == 3 then x else ByteOf(w, 3));
    assert a == 4 * (a / 4) + a % 4 && b == 4 * (a / 4) + b % 4;
    hide FourBytes, ByteOf;
  }

  function Extended(v: nat, size: nat): Word
    requires size == 0x100 || size == 0x1_0000
  {
    LowWord(if v % size >= size / 2 then v % size - size else v % size)
  }

  // ------------------------------------------------------------------ single transfers

  /** An offset: twelve bits, or a register shifted by a constant. */
  function TransferOffset(s: Core, register: bool, offset: nat): Word
    requires offset < 0x1000
  {
    if !register then offset
    else
      var k := offset / 0x20 % 4;
      Shifting(if k == 0 then LSL else if k == 1 then LSR else if k == 2 then ASR else ROR,
               s.r[offset % 0x10], offset / 0x80, s.cpsr.c, true).0
  }

  function Indexed(base: Word, u: bool, offset: Word): Word { Offset(base, if u then offset else -(offset as int)) }

  /** A load leaves its base alone when it is also the destination. */
  function WrittenBack(s: Core, p: bool, w: bool, l: bool, rn: nat, rd: nat, addr: Word): Core
    requires rn < 16
  {
    if (!p || w) && (rn != rd || !l) then s.(r := s.r[rn := addr]) else s
  }

  /** A misaligned word is rotated so that its addressed byte comes lowest. */
  function LoadedWord(m: Ram, a: Word): Word { RotateRight(ReadWord(m, a), a % 4 * 8) }

  function Loaded(s: Core, m: Ram, rd: nat, v: Word): Core
    requires rd < 16
  {
    s.(r := s.r[rd := v])
  }

  function ExecTransfer(s: Core, m: Ram, p: bool, u: bool, byte: bool, w: bool, l: bool, rn: nat, rd: nat,
                        register: bool, offset: nat): Outcome
    requires rn < 16 && rd < 16 && offset < 0x1000
  {
    var addr := Indexed(s.r[rn], u, TransferOffset(s, register, offset));
    var effective := if p then addr else s.r[rn];
    if l then
      var v: Word := if byte then ReadByte(m, effective) else LoadedWord(m, effective);
      var s' := WrittenBack(Loaded(s, m, rd, v), p, w, l, rn, rd, addr);
      if rd == PC then Jump(s', m) else Next(s', m)
    else
      var v := Stored(s, rd);
      Next(WrittenBack(s, p, w, l, rn, rd, addr),
           if byte then WriteByte(m, effective, v) else WriteWord(m, effective, v))
  }

  /** Kinds 1 to 3: an unsigned halfword, a signed byte, a signed halfword. */
  function LoadedHalf(m: Ram, a: Word, kind: nat): Word {
    if kind == 1 then ReadHalf(m, a)
    else if kind == 2 then Extended(ReadByte(m, a), 0x100)
    else if kind == 3 then Extended(ReadHalf(m, a), 0x1_0000)
    else 0
  }

  function ExecHalf(s: Core, m: Ram, p: bool, u: bool, w: bool, l: bool, rn: nat, rd: nat, kind: nat,
                    immediate: bool, offset: nat): Outcome
    requires rn < 16 && rd < 16 && offset < 0x100 && (!immediate ==> offset < 16)
  {
    var addr := Indexed(s.r[rn], u, if immediate then offset else s.r[offset]);
    var effective := if p then addr else s.r[rn];
    if l then
      var s' := WrittenBack(Loaded(s, m, rd, LoadedHalf(m, effective, kind)), p, w, l, rn, rd, addr);
      if rd == PC then Jump(s', m) else Next(s', m)
    else Next(WrittenBack(s, p, w, l, rn, rd, addr), WriteHalf(m, effective, s.r[rd]))
  }

  function ExecSwap(s: Core, m: Ram, byte: bool, rn: nat, rd: nat, rm: nat): Outcome
    requires rn < 16 && rd < 16 && rm < 16
  {
    var a := s.r[rn];
    if byte then Next(Loaded(s, m, rd, ReadByte(m, a)), WriteByte(m, a, s.r[rm]))
    else Next(Loaded(s, m, rd, LoadedWord(m, a)), WriteWord(m, a, s.r[rm]))
  }

  // ------------------------------------------------------------------ multiplies

  const WIDE := BASE * BASE

  function ExecMultiply(s: Core, m: Ram, accumulate: bool, flags: bool, rd: nat, rn: nat, rs: nat, rm: nat): Outcome
    requires rd < 16 && rn < 16 && rs < 16 && rm < 16
  {
    var product: int := s.r[rm] as int * s.r[rs] as int;
    var v := LowWord(product + if accumulate then s.r[rn] else 0);
    var s' := s.(r := s.r[rd := v]);
    Next(if flags then s'.(cpsr := s.cpsr.(n := Negative(v), z := v == 0)) else s', m)
  }

  /** The 64-bit result, of signed or unsigned operands. */
  function Product(a: Word, b: Word, signed: bool, acc: nat): (v: nat)
    ensures v < WIDE
  {
    ((if signed then TopSigned(a) * TopSigned(b) else a * b) + acc) % WIDE
  }

  function ExecMultiplyLong(s: Core, m: Ram, signed: bool, accumulate: bool, flags: bool,
                            hi: nat, lo: nat, rs: nat, rm: nat): Outcome
    requires hi < 16 && lo < 16 && rs < 16 && rm < 16
  {
    var acc: nat := if accumulate then s.r[hi] * BASE + s.r[lo] else 0;
    var v := Product(s.r[rm], s.r[rs], signed, acc);
    var s' := s.(r := s.r[hi := LowWord(v / BASE)][lo := LowWord(v)]);
    Next(if flags then s'.(cpsr := s.cpsr.(n := v >= WIDE / 2, z := v == 0)) else s', m)
  }

  // ------------------------------------------------------------------ status transfers

  /** The status register as a word. */
  function PsrWord(p: Psr): Word {
    LowWord(Bit(p.n) * 0x8000_0000 + Bit(p.z) * 0x4000_0000 + Bit(p.c) * 0x2000_0000 + Bit(p.v) * 0x1000_0000
            + p.rest * 0x100 + Bit(p.i) * 0x80 + Bit(p.f) * 0x40 + Bit(p.t) * 0x20 + p.low as int)
  }

  function WordPsr(w: Word): Psr {
    Psr(w / 0x8000_0000 == 1, w / 0x4000_0000 % 2 == 1, w / 0x2000_0000 % 2 == 1, w / 0x1000_0000 % 2 == 1,
        w / 0x80 % 2 == 1, w / 0x40 % 2 == 1, w / 0x20 % 2 == 1, w / 0x100 % 0x10_0000, (w % 0x20) as bv5)
  }

  function ExecMrs(s: Core, m: Ram, spsr: bool, rd: nat): Outcome
    requires rd < 16
  {
    Next(s.(r := s.r[rd := PsrWord(if spsr then SpsrBits(s) else CpsrBits(s))]), m)
  }

  /** The operand of a status write: a rotated byte or a register. */
  function StatusOperand(s: Core, immediate: bool, operand: nat): Word
    requires operand < 0x1000
  {
    if immediate then RotateRight(operand % 0x100, 2 * (operand / 0x100)) else s.r[operand % 0x10]
  }

  function ExecMsr(s: Core, m: Ram, spsr: bool, flags: bool, control: bool, immediate: bool, operand: nat): Outcome
    requires operand < 0x1000
  {
    var v := WordPsr(StatusOperand(s, immediate, operand));
    Next(if spsr then SetSpsr(s, v, flags, control) else SetCpsr(s, v, flags, control), m)
  }
}
