/// Laying out code with labels: branches are left open and filled in at the end.
module Assembler {
  import opened Options
  import opened Arithmetic
  import opened Alu
  import opened CpuState
  import opened Arm
  import opened Encoding

  datatype Fixup = Fixup(pc: nat, name: string, link: bool, cond: Nibble)

  /** Code words, the next address, the labels seen so far and the branches left open. */
  datatype Image = Image(code: seq<Word>, pc: nat, labels: map<string, nat>, fixups: seq<Fixup>)

  /** The branch from `pc` to `target`, as a number of words relative to two instructions on. */
  function Distance(pc: nat, target: nat): int { (target - pc - 8) / 4 }

  function BranchCode(cond: Nibble, link: bool, distance: int): Word {
    cond * 0x1000_0000 + 0x0A00_0000 + (if link then 0x0100_0000 else 0) + distance % 0x100_0000
  }

  function BranchWord(cond: Nibble, link: bool, pc: nat, target: nat): Word {
    BranchCode(cond, link, Distance(pc, target))
  }

  /** Reach of the 24-bit field. */
  predicate Reaches(pc: nat, target: nat) { -0x80_0000 <= Distance(pc, target) < 0x80_0000 }

  /** The decoder reads back condition, link bit and distance, and taking the branch with PC
      two instructions ahead leads to the target, with the return address in LR. */
  lemma BranchLands(cond: Nibble, link: bool, pc: nat, target: nat, s: Core, m: Ram)
    requires pc % 4 == 0 && target % 4 == 0 && target < BASE && pc + 8 < BASE && Reaches(pc, target)
    requires s.r[PC] == pc + 8
    ensures Decode(BranchWord(cond, link, pc, target)) == (cond, Branch(link, Distance(pc, target)))
    ensures var after := ExecBranch(s, m, link, Distance(pc, target));
            after.Jump? && after.core.r[PC] == target && (link ==> after.core.r[LR] == pc + 4)
  {
    hide Decode, Distance, BranchCode, ExecBranch;
    DistanceExact(pc, target);
    BranchDecodes(cond, link, Distance(pc, target));
    BranchTaken(s, m, link, Distance(pc, target), pc, target);
  }

  lemma DistanceExact(pc: nat, target: nat)
    requires pc % 4 == 0 && target % 4 == 0
    ensures 4 * Distance(pc, target) == target - pc - 8
  {
  }

  lemma BranchTaken(s: Core, m: Ram, link: bool, d: int, pc: nat, target: nat)
    requires 4 * d == target - pc - 8 && target < BASE && pc + 8 < BASE && s.r[PC] == pc + 8
    ensures var after := ExecBranch(s, m, link, d);
            after.Jump? && after.core.r[PC] == target && (link ==> after.core.r[LR] == pc + 4)
  {
  }

  lemma BranchDecodes(cond: Nibble, link: bool, d: int)
    requires -0x80_0000 <= d < 0x80_0000
    ensures Decode(BranchCode(cond, link, d)) == (cond, Branch(link, d))
  {
    var v := d % 0x100_0000;
    var f := BranchFields(cond, link, v);
    BranchFieldsAre(cond, link, v);
    SplitJoin(f);
    Signed24(d);
    hide BranchFields, DecodeFields, Split, Join;
  }

  lemma Signed24(d: int)
    requires -0x80_0000 <= d < 0x80_0000
    ensures var v := d % 0x100_0000; d == if v < 0x80_0000 then v else v - 0x100_0000
  {
  }

  function BranchFields(cond: Nibble, link: bool, v: nat): Fields
    requires v < 0x100_0000
  {
    Fields(cond, 0xA0 + (if link then 0x10 else 0) + v / 0x10_0000, v / 0x1_0000 % 16, v / 0x1000 % 16, v / 0x100 % 16,
           v / 0x10 % 16, v % 16)
  }

  /** The six hexadecimal digits of a number. */
  lemma Digits(v: nat)
    requires v < 0x100_0000
    ensures v == v / 0x10_0000 * 0x10_0000 + v / 0x1_0000 % 16 * 0x1_0000 + v / 0x1000 % 16 * 0x1000
                 + v / 0x100 % 16 * 0x100 + v / 0x10 % 16 * 0x10 + v % 16
    ensures v / 0x10_0000 < 16
  {
    DivTwice(v, 0x10, 0x10);
    DivTwice(v, 0x100, 0x10);
    DivTwice(v, 0x1000, 0x10);
    DivTwice(v, 0x1_0000, 0x10);
    Quotient(v, 16);
    Quotient(v / 0x10, 16);
    Quotient(v / 0x100, 16);
    Quotient(v / 0x1000, 16);
    Quotient(v / 0x1_0000, 16);
  }

  lemma BranchFieldsAre(cond: Nibble, link: bool, v: nat)
    requires v < 0x100_0000
    ensures var f := BranchFields(cond, link, v);
            && Join(f) == cond * 0x1000_0000 + 0x0A00_0000 + (if link then 0x0100_0000 else 0) + v
            && DecodeFields(f) == Branch(link, if v < 0x80_0000 then v else v - 0x100_0000)
  {
    Digits(v);
    var f := BranchFields(cond, link, v);
    assert f.high % 16 == v / 0x10_0000;
    BranchClass(f, link);
    hide DecodeFields;
  }

  lemma BranchClass(f: Fields, link: bool)
    requires f.high / 16 == if link then 0xB else 0xA
    ensures DecodeFields(f) == Branch(link, SignedOffset(f))
  {
    hide SignedOffset, ListBits, OperandOf;
  }

  // ------------------------------------------------------------------ placing code

  datatype Item =
    | Org(addr: nat)
    | Mark(name: string)
    | Emit(word: Word)
    | BranchTo(name: string, link: bool, cond: Nibble)

  const CODE_WORDS := 0x1000

  function Blank(): Image { Image(seq(CODE_WORDS, _ => 0), 0, map[], []) }

  /** Writing past the end of the code is an error. */
  function Emitted(im: Image, w: Word): Option<Image> {
    if im.pc / 4 < |im.code| then Some(im.(code := im.code[im.pc / 4 := w], pc := im.pc + 4)) else None
  }

  function Placed(im: Image, item: Item): Option<Image> {
    match item
    case Org(addr) => Some(im.(pc := addr))
    case Mark(name) => Some(im.(labels := im.labels[name := im.pc]))
    case Emit(w) => Emitted(im, w)
    case BranchTo(name, link, cond) => Emitted(im.(fixups := im.fixups + [Fixup(im.pc, name, link, cond)]), 0)
  }

  /** The first `n` items placed one after the other. */
  function BuiltTo(items: seq<Item>, n: nat): Option<Image>
    requires n <= |items|
  {
    if n == 0 then Some(Blank())
    else
      match BuiltTo(items, n - 1)
      case None => None
      case Some(im) => Placed(im, items[n - 1])
  }

  function Built(items: seq<Item>): Option<Image> { BuiltTo(items, |items|) }

  /** The first `k` open branches filled in; a label that was never set is an error. */
  function Filled(im: Image, k: nat): Option<seq<Word>>
    requires k <= |im.fixups|
  {
    if k == 0 then Some(im.code)
    else
      match Filled(im, k - 1)
      case None => None
      case Some(code) =>
        var f := im.fixups[k - 1];
        if f.name in im.labels && f.pc / 4 < |code| then
          Some(code[f.pc / 4 := BranchWord(f.cond, f.link, f.pc, im.labels[f.name])])
        else None
  }

  function Resolved(im: Image): Option<seq<Word>> { Filled(im, |im.fixups|) }

  class Asm {
    const code: array<Word>
    var pc: nat
    var labels: map<string, nat>
    var fixups: seq<Fixup>

    constructor ()
      ensures fresh(code) && State() == Blank()
    {
      code := new Word[CODE_WORDS](_ => 0);
      pc := 0;
      labels := map[];
      fixups := [];
    }

    ghost function State(): Image
      reads this, code
    {
      Image(code[..], pc, labels, fixups)
    }

    method At(addr: nat)
      modifies this`pc
      ensures Placed(old(State()), Org(addr)) == Some(State())
    {
      pc := addr;
    }

    method Label(name: string)
      modifies this`labels
      ensures Placed(old(State()), Mark(name)) == Some(State())
    {
      labels := labels[name := pc];
    }

    /** Without room nothing is written. */
    method EmitWord(w: Word) returns (ok: bool)
      modifies this`pc, code
      ensures ok <==> Emitted(old(State()), w).Some?
      ensures ok ==> Emitted(old(State()), w) == Some(State())
      ensures !ok ==> State() == old(State())
    {
      if pc / 4 >= code.Length {
        return false;
      }
      code[pc / 4] := w;
      pc := pc + 4;
      ok := true;
    }

    /** Encode and emit; an immediate that no rotation fits is an error. */
    method Instruction(op: Op, cond: Nibble) returns (ok: bool)
      requires InRange(op)
      modifies this`pc, code
      ensures ok ==> Encode(op, cond).Some? && 0 <= Encode(op, cond).value < BASE
      ensures ok ==> Emitted(old(State()), Encode(op, cond).value) == Some(State())
      ensures !ok ==> State() == old(State()) && (Encode(op, cond).None? || pc / 4 >= code.Length)
    {
      hide Encode, InRange, Decode, Meaning;
      DecodesAll(op, cond);
      var w := Encode(op, cond);
      if w.None? {
        return false;
      }
      ok := EmitWord(w.value);
    }

    method BranchTo(name: string, link: bool, cond: Nibble) returns (ok: bool)
      modifies this`pc, this`fixups, code
      ensures ok <==> Placed(old(State()), Item.BranchTo(name, link, cond)).Some?
      ensures ok ==> Placed(old(State()), Item.BranchTo(name, link, cond)) == Some(State())
    {
      fixups := fixups + [Fixup(pc, name, link, cond)];
      ok := EmitWord(0);
    }

    method FixUp() returns (ok: bool)
      modifies code
      ensures ok <==> Resolved(old(State())).Some?
      ensures ok ==> Resolved(old(State())) == Some(code[..])
    {
      ghost var im := State();
      ok := true;
      for k := 0 to |fixups|
        invariant Filled(im, k) == Some(code[..])
      {
        var f := fixups[k];
        if f.name !in labels || f.pc / 4 >= code.Length {
          FilledStops(im, k + 1, |fixups|);
          return false;
        }
        code[f.pc / 4] := BranchWord(f.cond, f.link, f.pc, labels[f.name]);
      }
    }
  }

  lemma {:induction false} FilledStops(im: Image, k: nat, n: nat)
    requires k <= n <= |im.fixups| && Filled(im, k).None?
    ensures Filled(im, n).None?
    decreases n
  {
    if k < n { FilledStops(im, k, n - 1); }
  }

  // ------------------------------------------------------------------ what ends up where

  /** The last of the first `k` fixups of the word at index `i`. */
  function LastAt(fixups: seq<Fixup>, k: nat, i: nat): Option<Fixup>
    requires k <= |fixups|
  {
    if k == 0 then None
    else if fixups[k - 1].pc / 4 == i then Some(fixups[k - 1])
    else LastAt(fixups, k - 1, i)
  }

  /** Every word ends up as the last branch left open there, whatever else was emitted at the
      same address, and as what was emitted if there is none. */
  lemma {:induction false} FilledAt(im: Image, k: nat, i: nat)
    requires k <= |im.fixups| && Filled(im, k).Some? && i < |im.code|
    ensures var code, f := Filled(im, k).value, LastAt(im.fixups, k, i);
            && |code| == |im.code|
            && (f.Some? ==> f.value.name in im.labels)
            && code[i] == match f
                 case None => im.code[i]
                 case Some(f) => BranchWord(f.cond, f.link, f.pc, im.labels[f.name])
  {
    if k > 0 {
      FilledAt(im, k - 1, i);
      hide BranchWord;
    }
  }

  /** The address at which item `j` is placed. */
  function Address(items: seq<Item>, j: nat): nat
    requires j <= |items|
  {
    if j == 0 then 0
    else
      match items[j - 1]
      case Org(addr) => addr
      case Mark(_) => Address(items, j - 1)
      case _ => Address(items, j - 1) + 4
  }

  /** The origin is kept word-aligned; it may go back to words already written. */
  predicate Aligned(items: seq<Item>, n: nat)
    requires n <= |items|
  {
    forall j :: 0 <= j < n && items[j].Org? ==> items[j].addr % 4 == 0
  }

  predicate On(items: seq<Item>, j: nat, i: nat)
    requires j < |items|
  {
    Address(items, j) / 4 == i
  }

  /** The last of the first `n` items that leaves a branch open at word `i`. */
  function LastBranch(items: seq<Item>, n: nat, i: nat): Option<nat>
    requires n <= |items|
  {
    if n == 0 then None
    else if items[n - 1].BranchTo? && On(items, n - 1, i) then Some(n - 1)
    else LastBranch(items, n - 1, i)
  }

  /** The last that emits at word `i` at all. */
  function LastEmit(items: seq<Item>, n: nat, i: nat): Option<nat>
    requires n <= |items|
  {
    if n == 0 then None
    else if (items[n - 1].Emit? || items[n - 1].BranchTo?) && On(items, n - 1, i) then Some(n - 1)
    else LastEmit(items, n - 1, i)
  }

  function FixupOf(items: seq<Item>, j: nat): Fixup
    requires j < |items| && items[j].BranchTo?
  {
    Fixup(Address(items, j), items[j].name, items[j].link, items[j].cond)
  }

  lemma {:induction false} LastBranchIs(items: seq<Item>, n: nat, i: nat)
    requires n <= |items|
    ensures match LastBranch(items, n, i)
            case None => forall k :: 0 <= k < n && items[k].BranchTo? ==> !On(items, k, i)
            case Some(j) =>
              && j < n && items[j].BranchTo? && On(items, j, i)
              && forall k :: j < k < n && items[k].BranchTo? ==> !On(items, k, i)
  {
    if n > 0 {
      hide On;
      LastBranchIs(items, n - 1, i);
    }
  }

  lemma {:induction false} LastEmitIs(items: seq<Item>, n: nat, i: nat)
    requires n <= |items|
    ensures match LastEmit(items, n, i)
            case None => forall k :: 0 <= k < n && (items[k].Emit? || items[k].BranchTo?) ==> !On(items, k, i)
            case Some(j) =>
              && j < n && (items[j].Emit? || items[j].BranchTo?) && On(items, j, i)
              && forall k :: j < k < n && (items[k].Emit? || items[k].BranchTo?) ==> !On(items, k, i)
  {
    if n > 0 {
      hide On;
      LastEmitIs(items, n - 1, i);
    }
  }

  lemma {:induction false} LastAtPrefix(fixups: seq<Fixup>, f: Fixup, k: nat, i: nat)
    requires k <= |fixups|
    ensures LastAt(fixups + [f], k, i) == LastAt(fixups, k, i)
  {
    if k > 0 { LastAtPrefix(fixups, f, k - 1, i); }
  }

  /** What stands at word `i` before the fixups, and the branch left open there. */
  ghost predicate Stands(items: seq<Item>, n: nat, i: nat, im: Image)
    requires n <= |items|
  {
    && im.pc == Address(items, n) && i < |im.code| == CODE_WORDS
    && im.code[i] == (match LastEmit(items, n, i)
         case None => 0
         case Some(j) => if j < |items| && items[j].Emit? then items[j].word else 0)
    && LastAt(im.fixups, |im.fixups|, i) == (match LastBranch(items, n, i)
         case None => None
         case Some(j) => if j < |items| && items[j].BranchTo? then Some(FixupOf(items, j)) else None)
  }

  lemma {:induction false} BuiltStands(items: seq<Item>, n: nat, i: nat)
    requires n <= |items| && BuiltTo(items, n).Some? && i < CODE_WORDS
    ensures Stands(items, n, i, BuiltTo(items, n).value)
  {
    if n > 0 {
      BuiltStands(items, n - 1, i);
      var im, last := BuiltTo(items, n - 1).value, items[n - 1];
      if last.BranchTo? {
        LastAtPrefix(im.fixups, FixupOf(items, n - 1), |im.fixups|, i);
      }
    }
  }

  ghost predicate LabelsAligned(im: Image) { forall name :: name in im.labels ==> im.labels[name] % 4 == 0 }

  lemma {:induction false} AddressAligned(items: seq<Item>, n: nat, j: nat)
    requires j <= n <= |items| && Aligned(items, n)
    ensures Address(items, j) % 4 == 0
  {
    if j > 0 { AddressAligned(items, n, j - 1); }
  }

  lemma {:induction false} BuiltAligned(items: seq<Item>, n: nat)
    requires n <= |items| && Aligned(items, n) && BuiltTo(items, n).Some?
    ensures LabelsAligned(BuiltTo(items, n).value)
  {
    if n > 0 {
      BuiltAligned(items, n - 1);
      BuiltStands(items, n - 1, 0);
      AddressAligned(items, n, n - 1);
      hide Address, Aligned, LastAt, LastBranch, LastEmit;
    }
  }

  /** For any order of origins, every word of the finished code is the last branch left open
      on it, even if something was emitted there later; else the last word emitted there; else 0. */
  lemma WordIs(items: seq<Item>, i: nat)
    requires Built(items).Some? && Resolved(Built(items).value).Some? && i < CODE_WORDS
    ensures var code, labels, n := Resolved(Built(items).value).value, Built(items).value.labels, |items|;
            && |code| == CODE_WORDS
            && match LastBranch(items, n, i)
               case Some(j) =>
                 && j < n && items[j].BranchTo? && items[j].name in labels
                 && code[i] == BranchWord(items[j].cond, items[j].link, Address(items, j), labels[items[j].name])
               case None =>
                 match LastEmit(items, n, i)
                 case Some(j) => j < n && items[j].Emit? && code[i] == items[j].word
                 case None => code[i] == 0
  {
    var im := Built(items).value;
    BuiltStands(items, |items|, i);
    FilledAt(im, |im.fixups|, i);
    LastBranchIs(items, |items|, i);
    LastEmitIs(items, |items|, i);
    hide BranchWord, BuiltTo, Address, Filled, LastAt, LastBranch, LastEmit;
  }

  /** Item `j` decides its word: a branch that no later branch is left open over, or a word
      that no branch is left open over, before or after, and no later word is put over. */
  predicate Decides(items: seq<Item>, j: nat)
    requires j < |items|
  {
    var i := Address(items, j) / 4;
    && (items[j].Emit? || items[j].BranchTo?)
    && (forall k :: j < k < |items| && On(items, k, i) ==> !items[k].BranchTo?)
    && (items[j].Emit? ==>
          forall k :: 0 <= k < |items| && On(items, k, i) ==> !items[k].BranchTo? && (items[k].Emit? ==> k <= j))
  }

  /** Of the items on a word exactly one decides it. */
  lemma DecidesIffLast(items: seq<Item>, j: nat)
    requires j < |items| && (items[j].Emit? || items[j].BranchTo?)
    ensures var i := Address(items, j) / 4;
            var b, e := LastBranch(items, |items|, i), LastEmit(items, |items|, i);
            && (b.Some? || e.Some?)
            && (Decides(items, j) <==> (if b.Some? then b else e) == Some(j))
  {
    var i := Address(items, j) / 4;
    assert On(items, j, i);
    LastBranchIs(items, |items|, i);
    LastEmitIs(items, |items|, i);
    hide On, LastBranch, LastEmit, Address;
  }

  /** What an item that decides its word leaves there: an emitted word is still there after
      the fixups, and a branch to a label within reach decodes to its condition and link bit
      and leads to the label. */
  lemma AssembledRight(items: seq<Item>, j: nat, s: Core, m: Ram)
    requires Aligned(items, |items|) && Built(items).Some? && Resolved(Built(items).value).Some?
    requires j < |items| && Decides(items, j) && s.r[PC] == Address(items, j) + 8
    ensures var code, labels, a := Resolved(Built(items).value).value, Built(items).value.labels, Address(items, j);
            && a / 4 < |code|
            && (items[j].Emit? ==> code[a / 4] == items[j].word)
            && (items[j].BranchTo? ==>
                  && items[j].name in labels
                  && var target := labels[items[j].name];
                     target < BASE && Reaches(a, target) ==>
                       && Decode(code[a / 4]) == (items[j].cond, Branch(items[j].link, Distance(a, target)))
                       && ExecBranch(s, m, items[j].link, Distance(a, target)).core.r[PC] == target)
  {
    var a := Address(items, j);
    PlacedInside(items, |items|, j);
    WordIs(items, a / 4);
    DecidesIffLast(items, j);
    BuiltAligned(items, |items|);
    AddressAligned(items, |items|, j);
    hide BranchWord, Decode, Built, Address, Resolved, LastBranch, LastEmit, Reaches, Distance, ExecBranch, Decides;
    if items[j].BranchTo? {
      var target := Built(items).value.labels[items[j].name];
      if target < BASE && Reaches(a, target) {
        BranchLands(items[j].cond, items[j].link, a, target, s, m);
      }
    }
  }

  lemma {:induction false} PlacedInside(items: seq<Item>, n: nat, j: nat)
    requires j < n <= |items| && BuiltTo(items, n).Some? && (items[j].Emit? || items[j].BranchTo?)
    ensures Address(items, j) / 4 < CODE_WORDS
  {
    BuiltStands(items, n - 1, 0);
    if j < n - 1 {
      PlacedInside(items, n - 1, j);
    }
    hide LastAt, LastBranch, LastEmit, Address;
  }

  // ------------------------------------------------------------------ code laid out in order

  /** The origin is only ever moved forward. */
  predicate Forward(items: seq<Item>, n: nat)
    requires n <= |items|
  {
    forall j :: 0 <= j < n && items[j].Org? ==> items[j].addr >= Address(items, j)
  }

  lemma {:induction false} ForwardAscends(items: seq<Item>, j: nat, k: nat)
    requires j < k <= |items| && Forward(items, k)
    ensures Address(items, j) <= Address(items, k)
    ensures items[j].Emit? || items[j].BranchTo? ==> Address(items, j) + 4 <= Address(items, k)
    decreases k
  {
    if j < k - 1 { ForwardAscends(items, j, k - 1); }
  }

  /** Then every item decides its word, so all that was emitted survives. */
  lemma ForwardDecides(items: seq<Item>, j: nat)
    requires Forward(items, |items|) && j < |items| && (items[j].Emit? || items[j].BranchTo?)
    ensures Decides(items, j)
  {
    forall k | 0 <= k < |items| && k != j && (items[k].Emit? || items[k].BranchTo?)
      ensures !On(items, k, Address(items, j) / 4)
    {
      if j < k {
        ForwardAscends(items, j, k);
      } else {
        ForwardAscends(items, k, j);
      }
    }
    hide Address;
  }
}
