/// Swap-based register banking refines a flat register file with one cell per
/// (bank, register), the picture of ARM DDI 0100, section A2.4.
module Banking {
  import opened Alu
  import opened CpuState

  /** A cell of the flat file. */
  datatype Cell = Cell(bank: nat, reg: nat)

  /** The cell register `k` names in mode `m`. */
  function Named(m: Mode, k: nat): Cell {
    if 8 <= k <= 12 then Cell(if m == Fiq then 1 else 0, k)
    else if 13 <= k <= 14 then Cell(m.Bank(), k)
    else Cell(0, k)
  }

  /** A cell some mode can name. */
  predicate IsCell(c: Cell) {
    c.reg < 16 && if 8 <= c.reg <= 12 then c.bank <= 1 else if 13 <= c.reg <= 14 then c.bank < 6 else c.bank == 0
  }

  /** Where the implementation keeps a cell while in its current mode. */
  function At(s: Core, c: Cell): Word
    requires IsCell(c)
  {
    if Named(s.mode, c.reg) == c then s.r[c.reg]
    else if c.reg == 13 then s.r13[c.bank]
    else if c.reg == 14 then s.r14[c.bank]
    else if c.bank == 1 then s.fiq[c.reg - 8]
    else s.usr[c.reg - 8]
  }

  /** A mode switch moves no value of the flat file. */
  lemma SwitchKeepsFile(s: Core, m: Mode, c: Cell)
    requires IsCell(c)
    ensures At(SwitchMode(s, m), c) == At(s, c)
    ensures SwitchMode(s, m).mode == m
  {
    SwitchSetsMode(s, m);
    hide SwitchMode;
    if c.reg == 13 || c.reg == 14 {
      SwitchPointers(s, m);
      PointerCell(s, SwitchMode(s, m), c);
    } else if 8 <= c.reg <= 12 {
      SwitchHigh(s, m, c.reg);
    } else {
      SwitchLow(s, m, c.reg);
    }
  }

  lemma SwitchSetsMode(s: Core, m: Mode)
    ensures SwitchMode(s, m).mode == m
  {
  }

  lemma PointerCell(s: Core, s': Core, c: Cell)
    requires IsCell(c) && 13 <= c.reg <= 14
    requires var o, n := s.mode.Bank(), s'.mode.Bank();
             && (o == n ==> s'.r[13] == s.r[13] && s'.r[14] == s.r[14] && s'.r13 == s.r13 && s'.r14 == s.r14)
             && (o != n ==> s'.r[13] == s.r13[n] && s'.r[14] == s.r14[n])
             && (o != n ==> s'.r13 == s.r13[o := s.r[13]] && s'.r14 == s.r14[o := s.r[14]])
    ensures At(s', c) == At(s, c)
  {
    hide Mode.Bank;
  }

  lemma SwitchPointers(s: Core, m: Mode)
    ensures var s' := SwitchMode(s, m);
            && s'.r[13] == (if m.Bank() == s.mode.Bank() then s.r[13] else s.r13[m.Bank()])
            && s'.r[14] == (if m.Bank() == s.mode.Bank() then s.r[14] else s.r14[m.Bank()])
            && s'.r13 == (if m.Bank() == s.mode.Bank() then s.r13 else s.r13[s.mode.Bank() := s.r[13]])
            && s'.r14 == (if m.Bank() == s.mode.Bank() then s.r14 else s.r14[s.mode.Bank() := s.r[14]])
  {
  }

  lemma SwitchHigh(s: Core, m: Mode, k: nat)
    requires 8 <= k <= 12
    ensures var s' := SwitchMode(s, m);
            && s'.r[k] == (if (m == Fiq) == (s.mode == Fiq) then s.r[k]
                           else if m == Fiq then s.fiq[k - 8] else s.usr[k - 8])
            && s'.fiq[k - 8] == (if m != Fiq && s.mode == Fiq then s.r[k] else s.fiq[k - 8])
            && s'.usr[k - 8] == (if m == Fiq && s.mode != Fiq then s.r[k] else s.usr[k - 8])
  {
  }

  lemma SwitchLow(s: Core, m: Mode, k: nat)
    requires k < 8 || k == 15
    ensures SwitchMode(s, m).r[k] == s.r[k]
  {
  }

  /** A register write changes exactly the cell the register names. */
  lemma WriteChangesOneCell(s: Core, k: nat, v: Word, c: Cell)
    requires k < 16 && IsCell(c)
    ensures At(s.(r := s.r[k := v]), c) == if c == Named(s.mode, k) then v else At(s, c)
  {
  }

  // ------------------------------------------------------------------- whole runs

  datatype Op = Switch(m: Mode) | Write(k: nat, v: Word)

  predicate Legal(op: Op) { op.Write? ==> op.k < 16 }

  function Apply(s: Core, op: Op): Core
    requires Legal(op)
  {
    match op
    case Switch(m) => SwitchMode(s, m)
    case Write(k, v) => s.(r := s.r[k := v])
  }

  /** The flat machine: a mode and a file; a switch only changes the mode. */
  datatype Flat = Flat(mode: Mode, file: Cell -> Word)

  function ApplyFlat(f: Flat, op: Op): Flat {
    match op
    case Switch(m) => f.(mode := m)
    case Write(k, v) =>
      var at := Named(f.mode, k);
      Flat(f.mode, c => if c == at then v else f.file(c))
  }

  function Run(s: Core, ops: seq<Op>): Core
    requires forall i :: 0 <= i < |ops| ==> Legal(ops[i])
    decreases ops
  {
    if ops == [] then s else Run(Apply(s, ops[0]), ops[1..])
  }

  function RunFlat(f: Flat, ops: seq<Op>): Flat
    decreases ops
  {
    if ops == [] then f else RunFlat(ApplyFlat(f, ops[0]), ops[1..])
  }

  ghost predicate Refines(s: Core, f: Flat) {
    s.mode == f.mode && forall c :: IsCell(c) ==> At(s, c) == f.file(c)
  }

  lemma StepRefines(s: Core, f: Flat, op: Op)
    requires Refines(s, f) && Legal(op)
    ensures Refines(Apply(s, op), ApplyFlat(f, op))
  {
    forall c | IsCell(c)
      ensures At(Apply(s, op), c) == ApplyFlat(f, op).file(c)
    {
      hide SwitchMode, At;
      match op {
        case Switch(m) => SwitchKeepsFile(s, m, c);
        case Write(k, v) => WriteChangesOneCell(s, k, v, c);
      }
    }
    if op.Switch? {
      SwitchKeepsFile(s, op.m, Cell(0, 0));
    }
  }

  /** After any run of switches and writes every visible register, in whatever
      mode the run ends, is the one the flat file holds. */
  lemma {:induction false} RunRefines(s: Core, f: Flat, ops: seq<Op>)
    requires Refines(s, f) && forall i :: 0 <= i < |ops| ==> Legal(ops[i])
    ensures Refines(Run(s, ops), RunFlat(f, ops))
    ensures forall k :: 0 <= k < 16 ==> Run(s, ops).r[k] == RunFlat(f, ops).file(Named(Run(s, ops).mode, k))
    decreases ops
  {
    if ops != [] {
      StepRefines(s, f, ops[0]);
      hide Refines;
      RunRefines(Apply(s, ops[0]), ApplyFlat(f, ops[0]), ops[1..]);
    } else {
      forall k | 0 <= k < 16
        ensures s.r[k] == f.file(Named(s.mode, k))
      {
        assert IsCell(Named(s.mode, k)) && At(s, Named(s.mode, k)) == s.r[k];
      }
    }
  }

  // ------------------------------------------------- equality through the flat file

  /** Cores that agree cell by cell, in the same mode, agree on every visible
      register. */
  lemma VisibleFromFile(s: Core, s': Core, k: nat)
    requires k < 16 && s.mode == s'.mode && At(s, Named(s.mode, k)) == At(s', Named(s.mode, k))
    ensures s.r[k] == s'.r[k]
  {
  }
}
