/// The CPU as an object: register arrays, banks and status changed in place.
module Machine {
  import opened Alu
  import opened Shifter
  import opened CpuState
  import opened Arm
  import opened Transfers
  import opened Encoding
  import opened Dispatch

  /** Wrapping arithmetic is what the flag helpers compute. */
  lemma WrapAdds(p: Psr, a: Word, b: Word)
    ensures Adds(p, a, b).0 == LowWord(a + b) && Adcs(p, a, b).0 == LowWord(a + b + Bit(p.c))
    ensures Subs(p, a, b).0 == LowWord(a - b) && Sbcs(p, a, b).0 == LowWord(a - b - (1 - Bit(p.c)))
  {
  }

  class Cpu {
    const r: array<Word>
    const bankedR13: array<Word>
    const bankedR14: array<Word>
    const bankedFiqR8: array<Word>
    const savedUsrR8: array<Word>
    const spsr: array<Psr>
    const ram: array<Word>
    var cpsr: Psr
    var mode: Mode
    var pipe0: Word
    var pipe1: Word
    var irqDelay: nat

    ghost predicate Valid() {
      && r.Length == 16 && bankedR13.Length == 6 && bankedR14.Length == 6
      && bankedFiqR8.Length == 5 && savedUsrR8.Length == 5 && spsr.Length == 6 && ram.Length >= 16
      && bankedR13 != bankedR14 && bankedFiqR8 != savedUsrR8 && r != ram
    }

    function Registers(): Core
      requires Valid()
      reads this, r, bankedR13, bankedR14, bankedFiqR8, savedUsrR8, spsr
    {
      Core(r[..], cpsr, mode, bankedR13[..], bankedR14[..], bankedFiqR8[..], savedUsrR8[..], spsr[..], irqDelay)
    }

    ghost function Memory(): Ram
      requires Valid()
      reads ram
    {
      ram[..]
    }

    ghost function Slots(): Pipe
      reads this
    {
      Pipe(pipe0, pipe1)
    }

    // ------------------------------------------------------------------ mode switches

    method SwitchMode(new_: Mode)
      requires Valid()
      modifies this`mode, r, bankedR13, bankedR14, bankedFiqR8, savedUsrR8
      ensures Valid() && Registers() == CpuState.SwitchMode(old(Registers()), new_)
    {
      if new_ == mode {
        return;
      }
      SwapPointers(new_);
      SwapHigh(new_);
      mode := new_;
    }

    method SwapPointers(new_: Mode)
      requires Valid()
      modifies r, bankedR13, bankedR14
      ensures Registers() == SwappedPointers(old(Registers()), new_)
    {
      var o, n := mode.Bank(), new_.Bank();
      if o != n {
        bankedR13[o] := r[13];
        bankedR14[o] := r[14];
        r[13] := bankedR13[n];
        r[14] := bankedR14[n];
      }
    }

    method SwapHigh(new_: Mode)
      requires Valid()
      modifies r, bankedFiqR8, savedUsrR8
      ensures Registers() == SwappedHigh(old(Registers()), new_)
    {
      if (mode == Fiq) != (new_ == Fiq) {
        if new_ == Fiq {
          Exchange(savedUsrR8, bankedFiqR8);
        } else {
          Exchange(bankedFiqR8, savedUsrR8);
        }
      }
    }

    method Exchange(save: array<Word>, load: array<Word>)
      requires r.Length == 16 && save.Length == 5 && load.Length == 5
      requires r != save && r != load && save != load
      modifies r, save
      ensures save[..] == old(r[8..13]) && r[..] == Spliced(old(r[..]), old(load[..]))
    {
      forall i | 0 <= i < 5 {
        save[i] := r[8 + i];
      }
      forall i | 0 <= i < 5 {
        r[8 + i] := load[i];
      }
    }

    // ------------------------------------------------------------------ status registers

    method SetCpsrBits(v: Psr, flags: bool, control: bool)
      requires Valid()
      modifies this`mode, this`cpsr, r, bankedR13, bankedR14, bankedFiqR8, savedUsrR8
      ensures Valid() && Registers() == SetCpsr(old(Registers()), v, flags, control)
    {
      var new_ := Masked(cpsr.(low := cpsr.low | mode.Bits()), v, flags, control);
      if control {
        hide CpuState.SwitchMode;
        SwitchMode(FromBits(new_.low));
      }
      cpsr := new_.(low := 0);
    }

    method SetSpsrBits(v: Psr, flags: bool, control: bool)
      requires Valid()
      modifies spsr
      ensures Registers() == SetSpsr(old(Registers()), v, flags, control)
    {
      var b := mode.Bank();
      if b != 0 {
        spsr[b] := Masked(spsr[b], v, flags, control);
      }
    }

    method RestoreStatus()
      requires Valid()
      modifies this`mode, this`cpsr, r, bankedR13, bankedR14, bankedFiqR8, savedUsrR8
      ensures Valid() && Registers() == RestoreCpsr(old(Registers()))
    {
      hide CpuState.SwitchMode;
      var p := spsr[mode.Bank()];
      SwitchMode(FromBits(p.low));
      cpsr := p.(low := 0);
    }

    // ------------------------------------------------------------------ the ALU helpers

    method AluAddSetflags(a: Word, b: Word) returns (result: Word)
      modifies this`cpsr
      ensures (result, cpsr) == Adds(old(cpsr), a, b)
    {
      result := SetFlags(AddFlags(a, b, false));
    }

    method AluSubSetflags(a: Word, b: Word) returns (result: Word)
      modifies this`cpsr
      ensures (result, cpsr) == Subs(old(cpsr), a, b)
    {
      result := SetFlags(SubFlags(a, b, true));
    }

    method AluAdcSetflags(a: Word, b: Word) returns (result: Word)
      modifies this`cpsr
      ensures (result, cpsr) == Adcs(old(cpsr), a, b)
    {
      result := SetFlags(AddFlags(a, b, cpsr.c));
    }

    method AluSbcSetflags(a: Word, b: Word) returns (result: Word)
      modifies this`cpsr
      ensures (result, cpsr) == Sbcs(old(cpsr), a, b)
    {
      result := SetFlags(SubFlags(a, b, cpsr.c));
    }

    method SetFlags(r: (Word, bool, bool)) returns (result: Word)
      modifies this`cpsr
      ensures (result, cpsr) == Flagged(old(cpsr), r)
    {
      result := r.0;
      cpsr := cpsr.(n := Negative(result), z := result == 0);
      cpsr := cpsr.(c := r.1);
      cpsr := cpsr.(v := r.2);
    }

    // ---------------------------------------------------------------- pipe and exceptions

    method FlushPipeline()
      requires Valid()
      modifies this`pipe0, this`pipe1, r
      ensures CpuState.Cpu(Registers(), Slots()) == Flush(old(Registers()), Memory())
    {
      hide ReadWord, ReadHalf;
      if cpsr.t {
        r[PC] := AlignHalf(r[PC]);
        pipe0 := ReadHalf(ram[..], r[PC]);
        pipe1 := ReadHalf(ram[..], Offset(r[PC], 2));
        r[PC] := Offset(r[PC], 4);
      } else {
        r[PC] := AlignWord(r[PC]);
        pipe0 := CpuState.ReadWord(ram[..], r[PC]);
        pipe1 := CpuState.ReadWord(ram[..], Offset(r[PC], 4));
        r[PC] := Offset(r[PC], 8);
      }
    }

    /** Switch to the exception's mode, save status and return address, and jump. */
    method EnterException(target: Mode, ret: Word, vector: Word)
      requires Valid()
      modifies this, r, bankedR13, bankedR14, bankedFiqR8, savedUsrR8, spsr
      ensures Valid()
      ensures CpuState.Cpu(Registers(), Slots()) == Flush(Enter(old(Registers()), target, ret, vector), Memory())
    {
      hide CpuState.SwitchMode, Flush;
      var saved := cpsr.(low := cpsr.low | mode.Bits());
      SwitchMode(target);
      spsr[target.Bank()] := saved;
      r[LR] := ret;
      cpsr := cpsr.(t := false);
      cpsr := cpsr.(i := true);
      r[PC] := vector;
      FlushPipeline();
    }

    method TakeIrq()
      requires Valid()
      modifies this, r, bankedR13, bankedR14, bankedFiqR8, savedUsrR8, spsr
      ensures Valid()
      ensures CpuState.Cpu(Registers(), Slots()) == CpuState.TakeIrq(old(Registers()), Memory())
    {
      hide Enter, Flush;
      EnterException(Irq, if cpsr.t then r[PC] else Offset(r[PC], -4), 0x18);
    }

    method ArmSwi()
      requires Valid()
      modifies this, r, bankedR13, bankedR14, bankedFiqR8, savedUsrR8, spsr
      ensures Valid()
      ensures CpuState.Cpu(Registers(), Slots()) == CpuState.ArmSwi(old(Registers()), Memory())
      ensures Reached(ExecInstruction(old(Registers()), old(Memory()), Instruction.Swi), old(Slots()))
    {
      hide Enter, Flush;
      EnterException(Supervisor, Offset(r[PC], -4), 0x08);
    }

    // -------------------------------------------------------------------- instructions

    /** The state after an outcome: a jump has refilled the pipe. */
    ghost predicate Reached(o: Outcome, before: Pipe)
      requires Valid()
      reads this, r, bankedR13, bankedR14, bankedFiqR8, savedUsrR8, spsr, ram
    {
      match o
      case Next(core, m) => Registers() == core && Memory() == m && Slots() == before
      case Jump(core, m) => CpuState.Cpu(Registers(), Slots()) == Flush(core, m) && Memory() == m
    }

    lemma Unmoved()
      requires Valid()
      ensures Reached(Next(Registers(), Memory()), Slots())
    {
    }

    method ArmBranch(link: bool, offset: int)
      requires Valid()
      modifies this`pipe0, this`pipe1, r
      ensures Reached(ExecBranch(old(Registers()), Memory(), link, offset), old(Slots()))
    {
      hide Flush;
      if link {
        r[LR] := Offset(r[PC], -4);
      }
      r[PC] := Offset(r[PC], 4 * offset);
      FlushPipeline();
    }

    method ArmBx(rn: nat)
      requires Valid() && rn < 16
      modifies this`pipe0, this`pipe1, this`cpsr, r
      ensures Reached(ExecBx(old(Registers()), Memory(), rn), old(Slots()))
    {
      hide Flush;
      var a := r[rn];
      cpsr := cpsr.(t := a % 2 == 1);
      r[PC] := AlignHalf(a);
      FlushPipeline();
    }

    /** Result and flags of an opcode: additions and subtractions without the S bit wrap, with
        it they go through the helpers; logical ones take carry from the shifter. */
    method Compute(opcode: nat, s: bool, a: Word, b: Word, shiftCarry: bool) returns (result: Word)
      requires opcode < 16
      modifies this`cpsr
      ensures var (value, flags) := Computed(old(cpsr), opcode, a, b, shiftCarry);
              result == value && cpsr == if s || opcode == 0xA || opcode == 0xB then flags else old(cpsr)
    {
      hide AddFlags, Not, LowWord, Logical;
      WrapAdds(cpsr, a, b);
      WrapAdds(cpsr, b, a);
      match opcode {
        case 0x2 => if s { result := AluSubSetflags(a, b); } else { result := LowWord(a - b); }
        case 0x3 => if s { result := AluSubSetflags(b, a); } else { result := LowWord(b - a); }
        case 0x4 => if s { result := AluAddSetflags(a, b); } else { result := LowWord(a + b); }
        case 0x5 => if s { result := AluAdcSetflags(a, b); } else { result := LowWord(a + b + Bit(cpsr.c)); }
        case 0x6 => if s { result := AluSbcSetflags(a, b); } else { result := LowWord(a - b - (1 - Bit(cpsr.c))); }
        case 0x7 => if s { result := AluSbcSetflags(b, a); } else { result := LowWord(b - a - (1 - Bit(cpsr.c))); }
        case 0xA => result := AluSubSetflags(a, b);
        case 0xB => result := AluAddSetflags(a, b);
        case _ =>
          result := match opcode
            case 0x0 => And(a, b)
            case 0x8 => And(a, b)
            case 0x1 => Xor(a, b)
            case 0x9 => Xor(a, b)
            case 0xC => Or(a, b)
            case 0xD => b
            case 0xE => And(a, Not(b))
            case _ => Not(b);
          if s {
            cpsr := cpsr.(n := Negative(result), z := result == 0);
            cpsr := cpsr.(c := shiftCarry);
          }
      }
    }

    method ArmDataProcessing(d: DataProcessing)
      requires Valid() && d.Valid()
      modifies this, r, bankedR13, bankedR14, bankedFiqR8, savedUsrR8
      ensures Valid()
      ensures Reached(ExecDataProcessing(old(Registers()), Memory(), d), old(Slots()))
    {
      hide Flush, RestoreCpsr, Operand2, Computed;
      var (b, shiftCarry) := Operand2(Registers(), d);
      var a := if d.op2.ByRegister? && d.rn == PC then Offset(r[PC], 4) else r[d.rn];
      var result := Compute(d.opcode, d.s, a, b, shiftCarry);
      if !Discards(d.opcode) {
        r[d.rd] := result;
        if d.rd == PC {
          if d.s {
            irqDelay := 1;
            RestoreStatus();
          }
          FlushPipeline();
        }
      }
    }

    method ArmBlockTransfer(b: Block)
      requires Valid() && b.Valid()
      modifies this, r, bankedR13, bankedR14, bankedFiqR8, savedUsrR8, ram
      ensures Valid()
      ensures Reached(ExecBlock(old(Registers()), old(Memory()), b), old(Slots()))
    {
      hide CpuState.SwitchMode, Flush, RestoreCpsr, StoreFrom, LoadFrom, Below;
      var count := Count(b);
      if count == 0 {
        return;
      }
      var base := r[b.rn];
      var saved := mode;
      var userBank := b.s && (!b.l || !b.list[PC]);
      SwitchMode(if userBank && mode != System then User else mode);
      if b.l {
        Load(b.list, Start(base, b));
      } else {
        Store(b.list, Start(base, b));
      }
      SwitchMode(saved);
      if b.w && !(b.l && b.list[b.rn]) {
        r[b.rn] := Final(base, b);
      }
      if b.l && b.list[PC] {
        if b.s {
          RestoreStatus();
        }
        FlushPipeline();
      }
    }

    /** The base register of a transfer after it. */
    method WriteBack(p: bool, w: bool, l: bool, rn: nat, rd: nat, addr: Word)
      requires Valid() && rn < 16
      modifies r
      ensures Registers() == WrittenBack(old(Registers()), p, w, l, rn, rd, addr)
    {
      if (!p || w) && (rn != rd || !l) {
        r[rn] := addr;
      }
    }

    method StoreWord(a: Word, v: Word)
      requires Valid()
      modifies ram
      ensures Memory() == WriteWord(old(Memory()), a, v)
    {
      ram[Index(ram[..], a)] := v;
    }

    method StoreByte(a: Word, v: Word)
      requires Valid()
      modifies ram
      ensures Memory() == WriteByte(old(Memory()), a, v)
    {
      hide Index, WithByte, WriteWord;
      StoreWord(a, WithByte(ReadWord(ram[..], a), a % 4, v % 0x100));
    }

    method ArmSingleTransfer(p: bool, u: bool, byte: bool, w: bool, l: bool, rn: nat, rd: nat, register: bool,
                             offset: nat)
      requires Valid() && rn < 16 && rd < 16 && offset < 0x1000
      modifies this`pipe0, this`pipe1, r, ram
      ensures Valid()
      ensures Reached(ExecTransfer(old(Registers()), old(Memory()), p, u, byte, w, l, rn, rd, register, offset),
                      old(Slots()))
    {
      hide Flush, WriteByte, WriteWord, ReadByte, LoadedWord, TransferOffset, Indexed, WrittenBack;
      var addr := Indexed(r[rn], u, TransferOffset(Registers(), register, offset));
      var effective := if p then addr else r[rn];
      if l {
        r[rd] := if byte then ReadByte(ram[..], effective) else LoadedWord(ram[..], effective);
        WriteBack(p, w, l, rn, rd, addr);
        if rd == PC {
          FlushPipeline();
        }
      } else {
        var v := if rd == PC then Offset(r[PC], 4) else r[rd];
        if byte {
          StoreByte(effective, v);
        } else {
          StoreWord(effective, v);
        }
        WriteBack(p, w, l, rn, rd, addr);
      }
    }

    method ArmHalfwordTransfer(p: bool, u: bool, w: bool, l: bool, rn: nat, rd: nat, kind: nat, immediate: bool,
                               offset: nat)
      requires Valid() && rn < 16 && rd < 16 && offset < 0x100 && (immediate || offset < 16)
      modifies this`pipe0, this`pipe1, r, ram
      ensures Valid()
      ensures Reached(ExecHalf(old(Registers()), old(Memory()), p, u, w, l, rn, rd, kind, immediate, offset),
                      old(Slots()))
    {
      hide Flush, WriteHalf, LoadedHalf, Indexed, WrittenBack;
      var addr := Indexed(r[rn], u, if immediate then offset else r[offset]);
      var effective := if p then addr else r[rn];
      if l {
        r[rd] := LoadedHalf(ram[..], effective, kind);
        WriteBack(p, w, l, rn, rd, addr);
        if rd == PC {
          FlushPipeline();
        }
      } else {
        StoreHalf(effective, r[rd]);
        WriteBack(p, w, l, rn, rd, addr);
      }
    }

    method StoreHalf(a: Word, v: Word)
      requires Valid()
      modifies ram
      ensures Memory() == WriteHalf(old(Memory()), a, v)
    {
      hide Index, WriteWord;
      var low, was := v % 0x1_0000, ReadWord(ram[..], a);
      StoreWord(a, if a % 4 < 2 then was / 0x1_0000 * 0x1_0000 + low else low * 0x1_0000 + was % 0x1_0000);
    }

    method ArmSwap(byte: bool, rn: nat, rd: nat, rm: nat)
      requires Valid() && rn < 16 && rd < 16 && rm < 16
      modifies r, ram
      ensures Reached(ExecSwap(old(Registers()), old(Memory()), byte, rn, rd, rm), old(Slots()))
    {
      hide ReadByte, LoadedWord, WriteByte, WriteWord;
      var a := r[rn];
      var was: Word := if byte then ReadByte(ram[..], a) else LoadedWord(ram[..], a);
      if byte {
        StoreByte(a, r[rm]);
      } else {
        StoreWord(a, r[rm]);
      }
      r[rd] := was;
    }

    method ArmMultiply(accumulate: bool, flags: bool, rd: nat, rn: nat, rs: nat, rm: nat)
      requires Valid() && rd < 16 && rn < 16 && rs < 16 && rm < 16
      modifies this`cpsr, r
      ensures Reached(ExecMultiply(old(Registers()), Memory(), accumulate, flags, rd, rn, rs, rm), old(Slots()))
    {
      var product: int := r[rm] as int * r[rs] as int;
      hide LowWord;
      var result := LowWord(product + if accumulate then r[rn] else 0);
      r[rd] := result;
      if flags {
        cpsr := cpsr.(n := Negative(result), z := result == 0);
      }
    }

    method ArmMultiplyLong(signed: bool, accumulate: bool, flags: bool, hi: nat, lo: nat, rs: nat, rm: nat)
      requires Valid() && hi < 16 && lo < 16 && rs < 16 && rm < 16
      modifies this`cpsr, r
      ensures Reached(ExecMultiplyLong(old(Registers()), Memory(), signed, accumulate, flags, hi, lo, rs, rm),
                      old(Slots()))
    {
      hide LowWord, Product;
      var acc: nat := if accumulate then r[hi] * BASE + r[lo] else 0;
      var result := Product(r[rm], r[rs], signed, acc);
      r[hi] := LowWord(result / BASE);
      r[lo] := LowWord(result);
      if flags {
        cpsr := cpsr.(n := result >= WIDE / 2);
        cpsr := cpsr.(z := result == 0);
      }
    }

    method ArmMrs(spsr_: bool, rd: nat)
      requires Valid() && rd < 16
      modifies r
      ensures Reached(ExecMrs(old(Registers()), Memory(), spsr_, rd), old(Slots()))
    {
      hide PsrWord;
      r[rd] := PsrWord(if spsr_ then spsr[mode.Bank()] else cpsr.(low := cpsr.low | mode.Bits()));
    }

    method ArmMsr(spsr_: bool, flags: bool, control: bool, immediate: bool, operand: nat)
      requires Valid() && operand < 0x1000
      modifies this`mode, this`cpsr, r, bankedR13, bankedR14, bankedFiqR8, savedUsrR8, spsr
      ensures Valid()
      ensures Reached(ExecMsr(old(Registers()), Memory(), spsr_, flags, control, immediate, operand), old(Slots()))
    {
      hide WordPsr, RotateRight, SetCpsr, SetSpsr;
      var v := WordPsr(StatusOperand(Registers(), immediate, operand));
      if spsr_ {
        SetSpsrBits(v, flags, control);
      } else {
        SetCpsrBits(v, flags, control);
      }
    }

    /** Decode and execute one ARM instruction. */
    method ExecArm(op: Word)
      requires Valid()
      modifies this, r, bankedR13, bankedR14, bankedFiqR8, savedUsrR8, spsr, ram
      ensures Valid()
      ensures Reached(Dispatch.ExecArm(old(Registers()), old(Memory()), op), old(Slots()))
    {
      hide Decode, Flush, Enter, Reached, ExecBx, ExecBranch, ExecBlock, ExecSwap, ExecMultiply, ExecMultiplyLong,
           ExecHalf, ExecMrs, ExecMsr, ExecTransfer, ExecDataProcessing;
      DecodedInBounds(op);
      match Decode(op).1 {
        case Bx(rn) => ArmBx(rn);
        case Swi => ArmSwi();
        case Branch(link, words) => ArmBranch(link, words);
        case BlockTransfer(b) => ArmBlockTransfer(b);
        case Swap(byte, rn, rd, rm) => ArmSwap(byte, rn, rd, rm);
        case Multiply(accumulate, flags, rd, rn, rs, rm) => ArmMultiply(accumulate, flags, rd, rn, rs, rm);
        case MultiplyLong(signed, accumulate, flags, hi, lo, rs, rm) =>
          ArmMultiplyLong(signed, accumulate, flags, hi, lo, rs, rm);
        case HalfTransfer(p, u, w, l, rn, rd, kind, immediate, offset) =>
          ArmHalfwordTransfer(p, u, w, l, rn, rd, kind, immediate, offset);
        case Mrs(ofSpsr, rd) => ArmMrs(ofSpsr, rd);
        case Msr(ofSpsr, flags, control, immediate, operand) => ArmMsr(ofSpsr, flags, control, immediate, operand);
        case Transfer(p, u, byte, w, l, rn, rd, register, offset) =>
          ArmSingleTransfer(p, u, byte, w, l, rn, rd, register, offset);
        case Data(d) => ArmDataProcessing(d);
        case Undefined => Unmoved();
      }
    }

    method Store(list: seq<bool>, start: Word)
      requires Valid() && |list| == 16
      modifies ram
      ensures Memory() == StoreFrom(Registers(), old(Memory()), list, start, 0)
    {
      var cur := start;
      for i := 0 to 16
        invariant StoreFrom(Registers(), Memory(), list, cur, i)
                  == StoreFrom(Registers(), old(Memory()), list, start, 0)
      {
        hide CpuState.Index;
        if list[i] {
          ram[Index(ram[..], cur)] := if i == PC then Offset(r[PC], 4) else r[i];
          cur := Offset(cur, 4);
        }
      }
    }

    method Load(list: seq<bool>, start: Word)
      requires Valid() && |list| == 16
      modifies r
      ensures Registers() == old(Registers()).(r := LoadFrom(old(r[..]), Memory(), list, start, 0))
    {
      var cur := start;
      for i := 0 to 16
        invariant LoadFrom(r[..], Memory(), list, cur, i) == LoadFrom(old(r[..]), Memory(), list, start, 0)
      {
        hide CpuState.Index;
        if list[i] {
          r[i] := ram[Index(ram[..], cur)];
          cur := Offset(cur, 4);
        }
      }
    }
  }
}
