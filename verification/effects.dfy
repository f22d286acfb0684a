/// What the other ARM instructions and the two exceptions leave behind, from registers and
/// memory bytes (ARM DDI 0100, sections A2.6 and A4.1).
module Effects {
  import opened Arithmetic
  import opened Alu
  import opened Shifter
  import opened CpuState
  import opened Arm
  import opened Transfers
  import opened Encoding
  import opened Operations
  import Banking
  import Pipeline

  // ------------------------------------------------------------------ bytes of memory

  /** Byte `i` of a word, the lowest first. */
  function Digit(v: int, i: nat): int
    requires i < 4
  {
    v / [1, 0x100, 0x1_0000, 0x100_0000][i] % 0x100
  }

  /** The byte at an address. */
  function Cell(m: Ram, a: Word): int { Digit(m[a / 4 % |m|], a % 4) }

  /** Both addresses name the same word of the mirrored memory. */
  predicate SameWord(m: Ram, a: Word, b: Word) { a / 4 % |m| == b / 4 % |m| }

  lemma DigitsOf(w: Word, i: nat)
    requires i < 4
    ensures Digit(w, i) == ByteOf(w, i)
    ensures w == ByteOf(w, 0) + 0x100 * ByteOf(w, 1) + 0x1_0000 * ByteOf(w, 2) + 0x100_0000 * ByteOf(w, 3)
  {
    DivTwice(w, 0x100, 0x100);
    DivTwice(w, 0x1_0000, 0x100);
    Quotient(w, 0x100);
    Quotient(w / 0x100, 0x100);
    Quotient(w / 0x1_0000, 0x100);
  }

  lemma CellIs(m: Ram, a: Word)
    ensures Cell(m, a) == ByteOf(ReadWord(m, a), a % 4) == ReadByte(m, a)
  {
    DigitsOf(ReadWord(m, a), a % 4);
    hide ByteOf, Digit;
  }

  lemma ByteWidths()
    ensures Pow2(0) == 1 && Pow2(8) == 0x100 && Pow2(16) == 0x1_0000 && Pow2(24) == 0x100_0000
            && Pow2(32) == BASE
  {
    assert Pow2(8) == 0x100;
    Pow2Add(8, 8);
    Pow2Add(16, 8);
    Pow2Known();
  }

  /** A word rotated by whole bytes. */
  lemma RotatedBytes(b0: Byte, b1: Byte, b2: Byte, b3: Byte)
    ensures var w := FourBytes(b0, b1, b2, b3);
            && RotateRight(w, 0) == w && RotateRight(w, 8) == FourBytes(b1, b2, b3, b0)
            && RotateRight(w, 16) == FourBytes(b2, b3, b0, b1) && RotateRight(w, 24) == FourBytes(b3, b0, b1, b2)
  {
    hide Pow2, RotateRight;
    ByteWidths();
    RotateParts(0, FourBytes(b0, b1, b2, b3), 0, 1, BASE);
    RotateParts(b0, b1 + 0x100 * b2 + 0x1_0000 * b3, 8, 0x100, 0x100_0000);
    RotateParts(b0 + 0x100 * b1, b2 + 0x100 * b3, 16, 0x1_0000, 0x1_0000);
    RotateParts(b0 + 0x100 * b1 + 0x1_0000 * b2, b3, 24, 0x100_0000, 0x100);
  }

  lemma WordBytes(w: Word)
    ensures w == FourBytes(ByteOf(w, 0), ByteOf(w, 1), ByteOf(w, 2), ByteOf(w, 3))
  {
    DigitsOf(w, 0);
    hide ByteOf;
  }

  lemma RotatedByteAt(w: Word, k: nat, i: nat)
    requires k < 4 && i < 4
    ensures ByteOf(RotateRight(w, k * 8), i) == ByteOf(w, (k + i) % 4)
  {
    hide *;
    var b0, b1, b2, b3 := ByteOf(w, 0), ByteOf(w, 1), ByteOf(w, 2), ByteOf(w, 3);
    WordBytes(w);
    RotatedBytes(b0, b1, b2, b3);
    if k == 0 {
      BytesOf(b0, b1, b2, b3);
    } else if k == 1 {
      BytesOf(b1, b2, b3, b0);
    } else if k == 2 {
      BytesOf(b2, b3, b0, b1);
    } else {
      BytesOf(b3, b0, b1, b2);
    }
    EachByte(w, b0, b1, b2, b3, k, i);
    EachByte(RotateRight(w, k * 8), if k == 0 then b0 else if k == 1 then b1 else if k == 2 then b2 else b3,
             if k == 0 then b1 else if k == 1 then b2 else if k == 2 then b3 else b0,
             if k == 0 then b2 else if k == 1 then b3 else if k == 2 then b0 else b1,
             if k == 0 then b3 else if k == 1 then b0 else if k == 2 then b1 else b2, 0, i);
  }

  lemma EachByte(w: Word, b0: Byte, b1: Byte, b2: Byte, b3: Byte, k: nat, i: nat)
    requires k < 4 && i < 4
    requires b0 == ByteOf(w, 0) && b1 == ByteOf(w, 1) && b2 == ByteOf(w, 2) && b3 == ByteOf(w, 3)
    ensures var j := (k + i) % 4;
            ByteOf(w, j) == if j == 0 then b0 else if j == 1 then b1 else if j == 2 then b2 else b3
    ensures (k + i) % 4 == if k + i < 4 then k + i else k + i - 4
  {
    hide ByteOf;
  }

  /** A word load: byte `i` of the result is the byte `i` places after the addressed one, going
      round in its word. */
  lemma LoadedWordAt(m: Ram, a: Word, i: nat)
    requires i < 4
    ensures Digit(LoadedWord(m, a), i) == Digit(m[a / 4 % |m|], (a % 4 + i) % 4)
  {
    var w := ReadWord(m, a);
    RotatedByteAt(w, a % 4, i);
    DigitsOf(LoadedWord(m, a), i);
    DigitsOf(w, (a % 4 + i) % 4);
    hide ByteOf, RotateRight, Digit;
  }

  /** The halfword and signed loads: two bytes of the halfword the address lies in, or one byte,
      extended by the sign for kinds 2 and 3. */
  lemma LoadedHalfMeans(m: Ram, a: Word, kind: nat)
    ensures var w, b := m[a / 4 % |m|], a % 4 / 2 * 2;
            var half, byte := Digit(w, b) + 0x100 * Digit(w, b + 1), Digit(w, a % 4);
            && (kind == 1 ==> LoadedHalf(m, a, kind) == half)
            && (kind == 2 ==> Signed(LoadedHalf(m, a, kind)) == if byte < 0x80 then byte else byte - 0x100)
            && (kind == 3 ==> Signed(LoadedHalf(m, a, kind)) == if half < 0x8000 then half else half - 0x1_0000)
            && (kind == 0 || kind > 3 ==> LoadedHalf(m, a, kind) == 0)
  {
    var w := ReadWord(m, a);
    CellIs(m, a);
    HalfIs(m, a);
    SignedExtension(ReadByte(m, a), 0x100);
    SignedExtension(ReadHalf(m, a), 0x1_0000);
    hide ReadHalf, ReadByte, Digit, Extended, Signed;
  }

  lemma HalfIs(m: Ram, a: Word)
    ensures var w, b := m[a / 4 % |m|], a % 4 / 2 * 2;
            ReadHalf(m, a) == Digit(w, b) + 0x100 * Digit(w, b + 1) < 0x1_0000
  {
    var w := ReadWord(m, a);
    DigitsOf(w, 0);
    DigitsOf(w, 1);
    DigitsOf(w, 2);
    DigitsOf(w, 3);
    QuotientIs(w, 0x1_0000, ByteOf(w, 2) + 0x100 * ByteOf(w, 3), ByteOf(w, 0) + 0x100 * ByteOf(w, 1));
    hide ByteOf, Digit;
  }

  lemma SignedExtension(v: nat, size: nat)
    requires v < size && (size == 0x100 || size == 0x1_0000)
    ensures Signed(Extended(v, size)) == if v < size / 2 then v else v - size
  {
  }

  // ------------------------------------------------------------------ stores

  /** Every byte of memory after a store. */
  lemma StoredWordAt(m: Ram, a: Word, v: Word, x: Word)
    ensures Cell(WriteWord(m, a, v), x) == if SameWord(m, a, x) then Digit(v, x % 4) else Cell(m, x)
  {
    hide Digit;
  }

  lemma StoredByteAt(m: Ram, a: Word, v: Word, x: Word)
    ensures Cell(WriteByte(m, a, v), x) == if SameWord(m, a, x) && a % 4 == x % 4 then v % 0x100 else Cell(m, x)
  {
    var w, i, b := ReadWord(m, a), a % 4, v % 0x100;
    StoredWordAt(m, a, WithByte(w, i, b), x);
    BytesOf(if i == 0 then b else ByteOf(w, 0), if i == 1 then b else ByteOf(w, 1),
            if i == 2 then b else ByteOf(w, 2), if i == 3 then b else ByteOf(w, 3));
    DigitsOf(WithByte(w, i, b), x % 4);
    DigitsOf(w, x % 4);
    hide ByteOf, FourBytes, Digit;
  }

  lemma StoredHalfAt(m: Ram, a: Word, v: Word, x: Word)
    ensures Cell(WriteHalf(m, a, v), x)
         == if SameWord(m, a, x) && a % 4 / 2 == x % 4 / 2 then Digit(v, x % 2) else Cell(m, x)
  {
    hide *;
    var w := ReadWord(m, a);
    var upper, j := a % 4 >= 2, x % 4;
    var u := Merged(w, v, upper);
    WriteHalfIs(m, a, v);
    MergedAt(w, v, upper, j);
    DigitsOf(w, j);
    DigitsOf(v, x % 2);
    DigitsOf(u, j);
    StoredWordAt(m, a, u, x);
    HalfPlaces(a % 4, j);
    SameCell(m, a, x);
    assert x % 2 == j % 2;
  }

  lemma WriteHalfIs(m: Ram, a: Word, v: Word)
    ensures WriteHalf(m, a, v) == WriteWord(m, a, Merged(ReadWord(m, a), v, a % 4 >= 2))
  {
    hide WriteWord, ReadWord;
  }

  lemma SameCell(m: Ram, a: Word, x: Word)
    ensures SameWord(m, a, x) ==> Cell(m, x) == Digit(ReadWord(m, a), x % 4)
  {
    hide Digit;
  }

  /** One half of `w` replaced by the low half of `v`. */
  function Merged(w: Word, v: Word, upper: bool): Word {
    var low := v % 0x1_0000;
    if upper then low * 0x1_0000 + w % 0x1_0000 else w / 0x1_0000 * 0x1_0000 + low
  }

  lemma MergedAt(w: Word, v: Word, upper: bool, j: nat)
    requires j < 4
    ensures ByteOf(Merged(w, v, upper), j) == if upper == (j >= 2) then ByteOf(v, j % 2) else ByteOf(w, j)
  {
    var b0, b1, b2, b3 := ByteOf(w, 0), ByteOf(w, 1), ByteOf(w, 2), ByteOf(w, 3);
    var v0, v1 := ByteOf(v, 0), ByteOf(v, 1);
    HalvesOf(w);
    HalvesOf(v);
    BytesOf(v0, v1, b2, b3);
    BytesOf(b0, b1, v0, v1);
    hide ByteOf;
    assert Merged(w, v, upper) == if upper then FourBytes(b0, b1, v0, v1) else FourBytes(v0, v1, b2, b3);
    hide FourBytes, Merged;
  }

  lemma HalfPlaces(i: nat, j: nat)
    requires i < 4 && j < 4
    ensures i / 2 == j / 2 <==> (i < 2 <==> j < 2)
  {
  }

  lemma HalvesOf(w: Word)
    ensures w % 0x1_0000 == ByteOf(w, 0) + 0x100 * ByteOf(w, 1)
    ensures w / 0x1_0000 == ByteOf(w, 2) + 0x100 * ByteOf(w, 3)
  {
    DigitsOf(w, 0);
    QuotientIs(w, 0x1_0000, ByteOf(w, 2) + 0x100 * ByteOf(w, 3), ByteOf(w, 0) + 0x100 * ByteOf(w, 1));
    hide ByteOf;
  }

  // ------------------------------------------------------------------ single transfers

  /** Registers but those of `written` are as they were, and nothing else of the core changed. */
  predicate Keeps(s: Core, t: Core, written: set<nat>) {
    t == s.(r := t.r) && forall k: nat :: k < 16 && k !in written ==> t.r[k] == s.r[k]
  }

  /** Whether the base register takes the new address: after a post-indexed transfer always,
      else as written back, but never over the value a load has put there. */
  predicate TakesBase(p: bool, w: bool, l: bool, rn: nat, rd: nat) { (!p || w) && !(l && rn == rd) }

  /** A load of a byte or of a word from `a`. */
  ghost predicate Loads(o: Outcome, s: Core, m: Ram, byte: bool, takes: bool, rn: nat, rd: nat, next: Word, a: Word)
    requires rn < 16 && rd < 16
  {
    && o.ram == m && (o.Jump? <==> rd == 15)
    && Keeps(s, o.core, {rd} + if takes then {rn} else {})
    && (takes ==> o.core.r[rn] == next)
    && (byte ==> o.core.r[rd] == Cell(m, a))
    && (!byte ==> forall i: nat :: i < 4 ==> Digit(o.core.r[rd], i) == Digit(m[a / 4 % |m|], (a % 4 + i) % 4))
  }

  /** Every byte of memory after `v`, or its low byte, went to `a`. */
  ghost predicate Holds(after: Ram, m: Ram, byte: bool, a: Word, v: Word) {
    && |after| == |m|
    && forall b: Word ::
         Cell(after, b) == if byte && SameWord(m, a, b) && a % 4 == b % 4 then v % 0x100
                           else if !byte && SameWord(m, a, b) then Digit(v, b % 4)
                           else Cell(m, b)
  }

  ghost predicate Stores(o: Outcome, s: Core, m: Ram, byte: bool, takes: bool, rn: nat, next: Word, a: Word, v: Word)
    requires rn < 16
  {
    && o.Next? && Keeps(s, o.core, if takes then {rn} else {}) && (takes ==> o.core.r[rn] == next)
    && Holds(o.ram, m, byte, a, v)
  }

  /** LDR, LDRB, STR and STRB.  `x` is the offset: as written, or a register shifted by a
      constant; `a` is the address used, and PC is stored one word further ahead. */
  lemma TransferMeans(s: Core, m: Ram, p: bool, u: bool, byte: bool, w: bool, l: bool, rn: nat, rd: nat,
                      register: bool, offset: nat) returns (x: Word, next: Word, a: Word)
    requires rn < 16 && rd < 16 && offset < 0x1000
    ensures x == if !register then offset
                 else
                   var shift := [LSL, LSR, ASR, ROR][offset / 0x20 % 4];
                   Operand2(s, DataProcessing(13, false, 0, 0, ByAmount(offset % 0x10, shift, offset / 0x80))).0
    ensures next == Offset(s.r[rn], if u then x else -(x as int)) && a == if p then next else s.r[rn]
    ensures var o := ExecTransfer(s, m, p, u, byte, w, l, rn, rd, register, offset);
            if l then Loads(o, s, m, byte, TakesBase(p, w, l, rn, rd), rn, rd, next, a)
            else
              Stores(o, s, m, byte, TakesBase(p, w, l, rn, rd), rn, next, a,
                     if rd == 15 then Offset(s.r[15], 4) else s.r[rd])
  {
    x := TransferOffset(s, register, offset);
    next := Indexed(s.r[rn], u, x);
    a := if p then next else s.r[rn];
    ShiftedOffset(s, register, offset);
    if l {
      TransferLoads(s, m, p, u, byte, w, rn, rd, register, offset);
    } else {
      TransferStores(s, m, p, u, byte, w, rn, rd, register, offset);
    }
    hide ExecTransfer, TransferOffset, Operand2, Loads, Stores, TakesBase;
  }

  lemma ShiftedOffset(s: Core, register: bool, offset: nat)
    requires offset < 0x1000
    ensures offset / 0x80 < 32 && offset / 0x20 % 4 < 4
    ensures TransferOffset(s, register, offset)
         == if !register then offset
            else
              var shift := [LSL, LSR, ASR, ROR][offset / 0x20 % 4];
              Operand2(s, DataProcessing(13, false, 0, 0, ByAmount(offset % 0x10, shift, offset / 0x80))).0
  {
    hide Shifting;
  }

  lemma LoadedBytes(m: Ram, a: Word)
    ensures ReadByte(m, a) == Cell(m, a)
    ensures forall i: nat :: i < 4 ==> Digit(LoadedWord(m, a), i) == Digit(m[a / 4 % |m|], (a % 4 + i) % 4)
  {
    CellIs(m, a);
    forall i: nat | i < 4
      ensures Digit(LoadedWord(m, a), i) == Digit(m[a / 4 % |m|], (a % 4 + i) % 4)
    {
      LoadedWordAt(m, a, i);
    }
    hide *;
  }

  lemma StoredBytes(m: Ram, a: Word, byte: bool, v: Word)
    ensures Holds(if byte then WriteByte(m, a, v) else WriteWord(m, a, v), m, byte, a, v)
  {
    var after := if byte then WriteByte(m, a, v) else WriteWord(m, a, v);
    assert |after| == |m|;
    forall b: Word
      ensures Cell(after, b) == if byte && SameWord(m, a, b) && a % 4 == b % 4 then v % 0x100
                                else if !byte && SameWord(m, a, b) then Digit(v, b % 4)
                                else Cell(m, b)
    {
      hide *;
      StoredByteAt(m, a, v, b);
      StoredWordAt(m, a, v, b);
    }
    hide Cell, Digit, SameWord, WriteByte, WriteWord;
  }

  lemma LoadIs(s: Core, m: Ram, p: bool, u: bool, byte: bool, w: bool, rn: nat, rd: nat, register: bool, offset: nat)
    requires rn < 16 && rd < 16 && offset < 0x1000
    ensures var next := Indexed(s.r[rn], u, TransferOffset(s, register, offset));
            var a := if p then next else s.r[rn];
            var v: Word := if byte then ReadByte(m, a) else LoadedWord(m, a);
            var core := s.(r := if TakesBase(p, w, true, rn, rd) then s.r[rd := v][rn := next] else s.r[rd := v]);
            ExecTransfer(s, m, p, u, byte, w, true, rn, rd, register, offset)
            == if rd == 15 then Jump(core, m) else Next(core, m)
  {
    hide TransferOffset, Indexed, LoadedWord, ReadByte;
  }

  lemma TransferLoads(s: Core, m: Ram, p: bool, u: bool, byte: bool, w: bool, rn: nat, rd: nat, register: bool,
                      offset: nat)
    requires rn < 16 && rd < 16 && offset < 0x1000
    ensures var next := Indexed(s.r[rn], u, TransferOffset(s, register, offset));
            Loads(ExecTransfer(s, m, p, u, byte, w, true, rn, rd, register, offset), s, m, byte,
                  TakesBase(p, w, true, rn, rd), rn, rd, next, if p then next else s.r[rn])
  {
    hide *;
    LoadIs(s, m, p, u, byte, w, rn, rd, register, offset);
    var next := Indexed(s.r[rn], u, TransferOffset(s, register, offset));
    LoadLeaves(ExecTransfer(s, m, p, u, byte, w, true, rn, rd, register, offset), s, m, byte, p, w, rn, rd, next,
               if p then next else s.r[rn]);
  }

  lemma LoadLeaves(o: Outcome, s: Core, m: Ram, byte: bool, p: bool, w: bool, rn: nat, rd: nat, next: Word, a: Word)
    requires rn < 16 && rd < 16
    requires var v: Word := if byte then ReadByte(m, a) else LoadedWord(m, a);
             var core := s.(r := if TakesBase(p, w, true, rn, rd) then s.r[rd := v][rn := next] else s.r[rd := v]);
             o == if rd == 15 then Jump(core, m) else Next(core, m)
    ensures Loads(o, s, m, byte, TakesBase(p, w, true, rn, rd), rn, rd, next, a)
  {
    LoadedBytes(m, a);
    KeepsTwo(s, rd, if byte then ReadByte(m, a) else LoadedWord(m, a), rn, next, TakesBase(p, w, true, rn, rd));
    hide LoadedWord, ReadByte, Cell, Digit, Keeps;
  }

  lemma KeepsTwo(s: Core, rd: nat, v: Word, rn: nat, next: Word, takes: bool)
    requires rn < 16 && rd < 16
    ensures Keeps(s, s.(r := if takes then s.r[rd := v][rn := next] else s.r[rd := v]),
                  {rd} + if takes then {rn} else {})
  {
  }

  lemma TransferStores(s: Core, m: Ram, p: bool, u: bool, byte: bool, w: bool, rn: nat, rd: nat, register: bool,
                       offset: nat)
    requires rn < 16 && rd < 16 && offset < 0x1000
    ensures var next := Indexed(s.r[rn], u, TransferOffset(s, register, offset));
            Stores(ExecTransfer(s, m, p, u, byte, w, false, rn, rd, register, offset), s, m, byte,
                   TakesBase(p, w, false, rn, rd), rn, next, if p then next else s.r[rn],
                   if rd == 15 then Offset(s.r[15], 4) else s.r[rd])
  {
    var next := Indexed(s.r[rn], u, TransferOffset(s, register, offset));
    StoredBytes(m, if p then next else s.r[rn], byte, Stored(s, rd));
    hide TransferOffset, Indexed, WriteByte, WriteWord, Holds;
  }

  /** LDRH, LDRSB, LDRSH and STRH. */
  lemma HalfTransferMeans(s: Core, m: Ram, p: bool, u: bool, w: bool, l: bool, rn: nat, rd: nat, kind: nat,
                          immediate: bool, offset: nat) returns (next: Word, a: Word)
    requires rn < 16 && rd < 16 && offset < 0x100 && (!immediate ==> offset < 16)
    ensures var x: int := if immediate then offset else s.r[offset];
            next == LowWord(s.r[rn] + if u then x else -x) && a == if p then next else s.r[rn]
    ensures var o := ExecHalf(s, m, p, u, w, l, rn, rd, kind, immediate, offset);
            var word, b := m[a / 4 % |m|], a % 4 / 2 * 2;
            var half, byte := Digit(word, b) + 0x100 * Digit(word, b + 1), Digit(word, a % 4);
            l ==>
              && o.ram == m && (o.Jump? <==> rd == 15)
              && Keeps(s, o.core, {rd} + if TakesBase(p, w, l, rn, rd) then {rn} else {})
              && (TakesBase(p, w, l, rn, rd) ==> o.core.r[rn] == next)
              && (kind == 1 ==> o.core.r[rd] == half)
              && (kind == 2 ==> Signed(o.core.r[rd]) == if byte < 0x80 then byte else byte - 0x100)
              && (kind == 3 ==> Signed(o.core.r[rd]) == if half < 0x8000 then half else half - 0x1_0000)
    ensures var o := ExecHalf(s, m, p, u, w, l, rn, rd, kind, immediate, offset);
            !l ==>
              && o.Next? && |o.ram| == |m|
              && Keeps(s, o.core, if TakesBase(p, w, l, rn, rd) then {rn} else {})
              && (TakesBase(p, w, l, rn, rd) ==> o.core.r[rn] == next)
              && forall b: Word :: Cell(o.ram, b) ==
                   if SameWord(m, a, b) && a % 4 / 2 == b % 4 / 2 then Digit(s.r[rd], b % 2) else Cell(m, b)
  {
    next := Indexed(s.r[rn], u, if immediate then offset else s.r[offset]);
    a := if p then next else s.r[rn];
    LoadedHalfMeans(m, a, kind);
    forall b: Word
      ensures Cell(WriteHalf(m, a, s.r[rd]), b)
           == if SameWord(m, a, b) && a % 4 / 2 == b % 4 / 2 then Digit(s.r[rd], b % 2) else Cell(m, b)
    {
      StoredHalfAt(m, a, s.r[rd], b);
      hide *;
    }
    WriteHalfIs(m, a, s.r[rd]);
    hide LoadedHalf, WriteHalf, Cell, Digit, SameWord, Signed, Merged;
  }

  /** SWP and SWPB: the old contents in `rd`, `rm` in memory, also if both are one register. */
  lemma SwapMeans(s: Core, m: Ram, byte: bool, rn: nat, rd: nat, rm: nat)
    requires rn < 16 && rd < 16 && rm < 16
    ensures var o, a := ExecSwap(s, m, byte, rn, rd, rm), s.r[rn];
            && o.Next? && Keeps(s, o.core, {rd}) && Holds(o.ram, m, byte, a, s.r[rm])
            && (byte ==> o.core.r[rd] == Cell(m, a))
            && (!byte ==> forall i: nat :: i < 4 ==>
                  Digit(o.core.r[rd], i) == Digit(m[a / 4 % |m|], (a % 4 + i) % 4))
  {
    LoadedBytes(m, s.r[rn]);
    StoredBytes(m, s.r[rn], byte, s.r[rm]);
    hide LoadedWord, ReadByte, WriteByte, WriteWord, Holds, Cell, Digit;
  }

  // ------------------------------------------------------------------ multiplies

  /** MUL and MLA: the low word of the product and the sum; N and Z of it, if asked for. */
  lemma MultiplyMeans(s: Core, m: Ram, accumulate: bool, flags: bool, rd: nat, rn: nat, rs: nat, rm: nat)
    requires rd < 16 && rn < 16 && rs < 16 && rm < 16
    ensures var o := ExecMultiply(s, m, accumulate, flags, rd, rn, rs, rm);
            var x: int, y: int := s.r[rm], s.r[rs];
            var v := (x * y + if accumulate then s.r[rn] else 0) % 0x1_0000_0000;
            && o.Next? && o.ram == m && o.core.r == s.r[rd := v]
            && o.core == s.(r := o.core.r,
                            cpsr := if flags then s.cpsr.(n := v >= 0x8000_0000, z := v == 0) else s.cpsr)
  {
  }

  /** The long multiplies: the 64-bit product of the operands, read as signed or not, and of the
      accumulator, modulo the width, the low word written last; N and Z of all 64 bits. */
  lemma MultiplyLongMeans(s: Core, m: Ram, signed: bool, accumulate: bool, flags: bool, hi: nat, lo: nat, rs: nat,
                          rm: nat) returns (v: nat)
    requires hi < 16 && lo < 16 && rs < 16 && rm < 16
    ensures var x, y := if signed then Signed(s.r[rm]) else s.r[rm], if signed then Signed(s.r[rs]) else s.r[rs];
            var acc := if accumulate then s.r[hi] as int * 0x1_0000_0000 + s.r[lo] as int else 0;
            v == (x * y + acc) % 0x1_0000_0000_0000_0000
    ensures var o := ExecMultiplyLong(s, m, signed, accumulate, flags, hi, lo, rs, rm);
            && o.Next? && o.ram == m && Keeps(s.(cpsr := o.core.cpsr), o.core, {hi, lo})
            && o.core.r[lo] == v % 0x1_0000_0000 && (hi != lo ==> o.core.r[hi] == v / 0x1_0000_0000)
            && o.core.cpsr == if flags then s.cpsr.(n := v >= 0x8000_0000_0000_0000, z := v == 0) else s.cpsr
  {
    var acc: nat := if accumulate then s.r[hi] as int * BASE + s.r[lo] as int else 0;
    v := Product(s.r[rm], s.r[rs], signed, acc);
    ProductIs(s.r[rm], s.r[rs], signed, acc);
    LongLeaves(s, m, signed, accumulate, flags, hi, lo, rs, rm, v);
    hide Product, Signed, ExecMultiplyLong, Keeps;
  }

  lemma LongLeaves(s: Core, m: Ram, signed: bool, accumulate: bool, flags: bool, hi: nat, lo: nat, rs: nat, rm: nat,
                   v: nat)
    requires hi < 16 && lo < 16 && rs < 16 && rm < 16
    requires v == Product(s.r[rm], s.r[rs], signed, if accumulate then s.r[hi] as int * BASE + s.r[lo] as int else 0)
    ensures var o := ExecMultiplyLong(s, m, signed, accumulate, flags, hi, lo, rs, rm);
            && o.Next? && o.ram == m && Keeps(s.(cpsr := o.core.cpsr), o.core, {hi, lo})
            && o.core.r[lo] == v % 0x1_0000_0000 && (hi != lo ==> o.core.r[hi] == v / 0x1_0000_0000)
            && o.core.cpsr == if flags then s.cpsr.(n := v >= 0x8000_0000_0000_0000, z := v == 0) else s.cpsr
  {
    HighWord(v);
    hide Product, LowWord;
    assert LowWord(v) == v % 0x1_0000_0000;
  }

  lemma HighWord(v: nat)
    requires v < WIDE
    ensures LowWord(v / BASE) == v / 0x1_0000_0000 && LowWord(v) == v % 0x1_0000_0000
  {
  }

  lemma SignedIs(w: Word)
    ensures Signed(w) == TopSigned(w)
  {
  }

  lemma ProductIs(a: Word, b: Word, signed: bool, acc: nat)
    ensures Product(a, b, signed, acc)
         == ((if signed then Signed(a) * Signed(b) else a * b) + acc) % 0x1_0000_0000_0000_0000
  {
    SignedIs(a);
    SignedIs(b);
    hide TopSigned, Signed;
  }

  // ------------------------------------------------------------------ branches and exceptions

  /** The processor is about to execute the ARM code at `a`, a multiple of four. */
  predicate AtArm(c: Cpu, m: Ram, a: Word) {
    && !c.core.cpsr.t && c.core.r[15] == Offset(a, 8)
    && c.pipe == Pipe(m[a / 4 % |m|], m[Offset(a, 4) / 4 % |m|])
  }

  /** The processor is about to execute the Thumb code at `a`, a multiple of two. */
  predicate AtThumb(c: Cpu, m: Ram, a: Word) {
    var next := Offset(a, 2);
    && c.core.cpsr.t && c.core.r[15] == Offset(a, 4)
    && c.pipe.slot0 == Digit(m[a / 4 % |m|], a % 4 / 2 * 2) + 0x100 * Digit(m[a / 4 % |m|], a % 4 / 2 * 2 + 1)
    && c.pipe.slot1
       == Digit(m[next / 4 % |m|], next % 4 / 2 * 2) + 0x100 * Digit(m[next / 4 % |m|], next % 4 / 2 * 2 + 1)
  }

  lemma FlushedArm(s: Core, m: Ram, a: Word)
    requires !s.cpsr.t && a == s.r[15] - s.r[15] % 4
    ensures AtArm(Flush(s, m), m, a) && Flush(s, m).core == s.(r := s.r[15 := Offset(a, 8)])
  {
    assert AlignWord(s.r[15]) == a;
    hide Offset, AlignWord;
  }

  lemma FlushedThumb(s: Core, m: Ram, a: Word)
    requires s.cpsr.t && a == s.r[15] - s.r[15] % 2
    ensures AtThumb(Flush(s, m), m, a) && Flush(s, m).core == s.(r := s.r[15 := Offset(a, 4)])
  {
    assert AlignHalf(s.r[15]) == a;
    HalfIs(m, a);
    HalfIs(m, Offset(a, 2));
    hide Offset, AlignHalf, ReadHalf, Digit;
  }

  /** BX: bit 0 of the register selects the instruction set, and the code is at the register's
      value with that bit, or the lowest two, cleared. */
  lemma BxMeans(s: Core, m: Ram, rn: nat)
    requires rn < 16
    ensures var o, a := ExecBx(s, m, rn), s.r[rn];
            && o.Jump? && o.ram == m
            && (a % 2 == 1 ==> AtThumb(Flush(o.core, m), m, Offset(a, -1)))
            && (a % 2 == 0 ==> AtArm(Flush(o.core, m), m, Offset(a, -(a as int % 4))))
            && var c := Flush(o.core, m).core;
               c == s.(r := s.r[15 := c.r[15]], cpsr := s.cpsr.(t := a % 2 == 1))
  {
    var o, a := ExecBx(s, m, rn), s.r[rn];
    Cleared(a);
    if a % 2 == 1 {
      FlushedThumb(o.core, m, Offset(a, -1));
    } else {
      FlushedArm(o.core, m, Offset(a, -(a as int % 4)));
    }
    hide Flush, AtArm, AtThumb, Offset;
  }

  lemma Cleared(a: Word)
    ensures a % 2 == 1 ==> Offset(a, -1) == a - 1 == AlignHalf(a) && AlignHalf(a) % 2 == 0
    ensures a % 2 == 0 ==> Offset(a, -(a as int % 4)) == a - a % 4 && AlignHalf(a) == a
  {
  }

  /** B and BL: so many words on from the address of the branch and eight, and LR the address
      behind the branch. */
  lemma BranchMeans(s: Core, m: Ram, link: bool, words: int)
    requires !s.cpsr.t && s.r[15] % 4 == 0
    ensures var o := ExecBranch(s, m, link, words);
            && o.Jump? && o.ram == m
            && AtArm(Flush(o.core, m), m, Offset(s.r[15], 4 * words))
            && var c := Flush(o.core, m).core;
               c == s.(r := if link then s.r[14 := Offset(s.r[15], -4)][15 := c.r[15]] else s.r[15 := c.r[15]])
  {
    WordsOn(s.r[15], words);
    FlushedArm(ExecBranch(s, m, link, words).core, m, Offset(s.r[15], 4 * words));
    hide Flush, AtArm, Offset;
  }

  lemma WordsOn(pc: Word, words: int)
    requires pc % 4 == 0
    ensures Offset(pc, 4 * words) % 4 == 0
  {
    var v := pc + 4 * words;
    Quotient(v, BASE);
    Quotient(pc, 4);
    QuotientIs(v % BASE, 4, pc / 4 + words - v / BASE * 0x4000_0000, 0);
  }

  /** The entry of an exception, whole: code at the vector, in ARM state with interrupts off, in
      the exception's mode; its LR the return address, its SPSR the status with the old mode's
      number; every other register as it was. */
  ghost predicate Entered(c: Cpu, s: Core, m: Ram, mode: Mode, back: Word, vector: Word) {
    && AtArm(c, m, vector) && c.core.mode == mode && c.core.cpsr == s.cpsr.(t := false, i := true)
    && c.core.r[14] == back && c.core.irqDelay == s.irqDelay
    && c.core.spsr == s.spsr[mode.Bank() := s.cpsr.(low := s.cpsr.low | s.mode.Bits())]
    && forall cell :: Banking.IsCell(cell) && cell != Banking.Cell(0, 15) && cell != Banking.Cell(mode.Bank(), 14) ==>
         Banking.At(c.core, cell) == Banking.At(s, cell)
  }

  /** A software interrupt goes to 0x08 in supervisor mode, an interrupt to 0x18 in IRQ mode.
      The one returns behind the instruction, the other four bytes short of the address kept. */
  lemma ExceptionsMean(s: Core, m: Ram)
    ensures Entered(CpuState.ArmSwi(s, m), s, m, Supervisor, Offset(s.r[15], -4), 8)
    ensures Entered(CpuState.TakeIrq(s, m), s, m, Irq, if s.cpsr.t then s.r[15] else Offset(s.r[15], -4), 0x18)
  {
    EntryMeans(s, m, Supervisor, Offset(s.r[15], -4), 8);
    EntryMeans(s, m, Irq, if s.cpsr.t then s.r[15] else Offset(s.r[15], -4), 0x18);
    hide Enter, Flush, Entered, Offset;
  }

  /** One step of the CPU.  Halted it waits for a pending interrupt, enabled or not.  An
      interrupt is taken if one is pending, interrupts are on, I is clear and no return was
      just made.  Otherwise the instruction in the first slot is executed, unless its
      condition fails, and the wait after a return is one step shorter. */
  lemma StepMeans(exec: Pipeline.Exec, x: Pipeline.Machine, l: Pipeline.Lines)
    ensures var y, s := Pipeline.Step(exec, x, l), x.cpu.core;
            var waits := x.halted && !l.pending;
            var enters := !waits && l.pending && l.ime && !s.cpsr.i && s.irqDelay == 0;
            && (waits ==> y == x)
            && (enters ==>
                  && Entered(y.cpu, s, x.ram, Irq, if s.cpsr.t then s.r[15] else Offset(s.r[15], -4), 0x18)
                  && y.ram == x.ram && !y.halted)
            && (!waits && !enters ==>
                  var aged := s.(irqDelay := if s.irqDelay == 0 then 0 else s.irqDelay - 1);
                  var size := if s.cpsr.t then 2 else 4;
                  var o := if !s.cpsr.t && !CheckCond(s.cpsr, x.cpu.pipe.slot0 / 0x1000_0000) then Next(aged, x.ram)
                           else exec(aged, x.ram, x.cpu.pipe.slot0);
                  && y.halted == l.halts && y.ram == o.ram
                  && (o.Jump? ==> y.cpu == Flush(o.core, o.ram))
                  && (o.Next? ==>
                        && y.cpu.core == o.core.(r := o.core.r[15 := Offset(o.core.r[15], size)])
                        && y.cpu.pipe.slot0 == x.cpu.pipe.slot1
                        && y.cpu.pipe.slot1 == Code(o.ram, s.cpsr.t, o.core.r[15])))
  {
    ExceptionsMean(x.cpu.core, x.ram);
    hide Flush, Enter, Entered, CpuState.TakeIrq, CheckCond, Code;
  }

  lemma EntryMeans(s: Core, m: Ram, mode: Mode, back: Word, vector: Word)
    requires vector % 4 == 0
    ensures Entered(Flush(Enter(s, mode, back, vector), m), s, m, mode, back, vector)
  {
    var e := Enter(s, mode, back, vector);
    var t := SwitchMode(s, mode);
    SwitchKeepsRest(s, mode);
    Banking.SwitchKeepsFile(s, mode, Banking.Cell(0, 0));
    assert e == t.(spsr := t.spsr[mode.Bank() := s.cpsr.(low := s.cpsr.low | s.mode.Bits())],
                   r := t.r[14 := back][15 := vector], cpsr := t.cpsr.(t := false, i := true)) by {
      hide SwitchMode;
    }
    FlushedArm(e, m, vector);
    var c := Flush(e, m);
    forall cell | Banking.IsCell(cell) && cell != Banking.Cell(0, 15) && cell != Banking.Cell(mode.Bank(), 14)
      ensures Banking.At(c.core, cell) == Banking.At(s, cell)
    {
      Banking.SwitchKeepsFile(s, mode, cell);
      hide SwitchMode, Enter, Flush, Mode.Bank;
    }
    hide SwitchMode, Enter, Flush, Mode.Bank, Mode.Bits, Banking.At;
  }

  lemma SwitchKeepsRest(s: Core, mode: Mode)
    ensures var t := SwitchMode(s, mode); t.cpsr == s.cpsr && t.spsr == s.spsr && t.irqDelay == s.irqDelay
  {
  }

  // ------------------------------------------------------------------ the status registers

  /** The status register as a word: the four flags on top, then what the model keeps as it is,
      then the interrupt masks, the instruction set and the mode's number. */
  lemma PsrWordBits(p: Psr)
    ensures var w: int := PsrWord(p);
            && (w / 0x8000_0000 % 2 == 1 <==> p.n) && (w / 0x4000_0000 % 2 == 1 <==> p.z)
            && (w / 0x2000_0000 % 2 == 1 <==> p.c) && (w / 0x1000_0000 % 2 == 1 <==> p.v)
            && w / 0x100 % 0x10_0000 == p.rest && (w / 0x80 % 2 == 1 <==> p.i) && (w / 0x40 % 2 == 1 <==> p.f)
            && (w / 0x20 % 2 == 1 <==> p.t) && w % 0x20 == p.low as int
  {
    hide *;
    var low := p.low as int;
    PsrWordSum(p, low);
    BitIs(p.n);
    BitIs(p.z);
    BitIs(p.c);
    BitIs(p.v);
    BitIs(p.i);
    BitIs(p.f);
    BitIs(p.t);
    StatusDigits(Alu.Bit(p.n), Alu.Bit(p.z), Alu.Bit(p.c), Alu.Bit(p.v), p.rest, Alu.Bit(p.i), Alu.Bit(p.f),
                 Alu.Bit(p.t), low);
  }

  lemma BitIs(b: bool)
    ensures Alu.Bit(b) < 2 && (Alu.Bit(b) == 1 <==> b)
  {
  }

  function StatusSum(n: nat, z: nat, c: nat, v: nat, rest: nat, i: nat, f: nat, t: nat, low: nat): nat {
    (((((((n * 2 + z) * 2 + c) * 2 + v) * 0x10_0000 + rest) * 2 + i) * 2 + f) * 2 + t) * 0x20 + low
  }

  lemma PsrWordSum(p: Psr, low: nat)
    requires low == p.low as int
    ensures low < 0x20
    ensures PsrWord(p) == StatusSum(Alu.Bit(p.n), Alu.Bit(p.z), Alu.Bit(p.c), Alu.Bit(p.v), p.rest, Alu.Bit(p.i),
                                    Alu.Bit(p.f), Alu.Bit(p.t), low)
  {
    SumFits(Alu.Bit(p.n), Alu.Bit(p.z), Alu.Bit(p.c), Alu.Bit(p.v), p.rest, Alu.Bit(p.i), Alu.Bit(p.f), Alu.Bit(p.t),
            low);
    hide LowWord, StatusSum;
  }

  lemma SumFits(n: nat, z: nat, c: nat, v: nat, rest: nat, i: nat, f: nat, t: nat, low: nat)
    requires n < 2 && z < 2 && c < 2 && v < 2 && rest < 0x10_0000 && i < 2 && f < 2 && t < 2 && low < 0x20
    ensures LowWord(n * 0x8000_0000 + z * 0x4000_0000 + c * 0x2000_0000 + v * 0x1000_0000 + rest * 0x100 + i * 0x80
                    + f * 0x40 + t * 0x20 + low)
         == StatusSum(n, z, c, v, rest, i, f, t, low)
  {
  }

  lemma StatusDigits(n: nat, z: nat, c: nat, v: nat, rest: nat, i: nat, f: nat, t: nat, low: nat)
    requires n < 2 && z < 2 && c < 2 && v < 2 && rest < 0x10_0000 && i < 2 && f < 2 && t < 2 && low < 0x20
    ensures var w := StatusSum(n, z, c, v, rest, i, f, t, low);
            && w / 0x8000_0000 % 2 == n && w / 0x4000_0000 % 2 == z && w / 0x2000_0000 % 2 == c
            && w / 0x1000_0000 % 2 == v && w / 0x100 % 0x10_0000 == rest && w / 0x80 % 2 == i
            && w / 0x40 % 2 == f && w / 0x20 % 2 == t && w % 0x20 == low
  {
    var w := StatusSum(n, z, c, v, rest, i, f, t, low);
    var flags := ((n * 2 + z) * 2 + c) * 2 + v;
    var head := flags * 0x10_0000 + rest;
    var tail := i * 0x80 + f * 0x40 + t * 0x20 + low;
    QuotientIs(w, 0x20, ((head * 2 + i) * 2 + f) * 2 + t, low);
    QuotientIs(w, 0x40, (head * 2 + i) * 2 + f, t * 0x20 + low);
    QuotientIs(w, 0x80, head * 2 + i, f * 0x40 + t * 0x20 + low);
    QuotientIs(w, 0x100, head, tail);
    var under := rest * 0x100 + tail;
    QuotientIs(w, 0x1000_0000, flags, under);
    QuotientIs(w, 0x2000_0000, (n * 2 + z) * 2 + c, v * 0x1000_0000 + under);
    QuotientIs(w, 0x4000_0000, n * 2 + z, c * 0x2000_0000 + v * 0x1000_0000 + under);
    QuotientIs(w, 0x8000_0000, n, z * 0x4000_0000 + c * 0x2000_0000 + v * 0x1000_0000 + under);
    LastDigits(head, i, f, t, flags, rest, n, z, c, v);
    hide StatusSum;
  }

  lemma LastDigits(head: nat, i: nat, f: nat, t: nat, flags: nat, rest: nat, n: nat, z: nat, c: nat, v: nat)
    requires head == flags * 0x10_0000 + rest && rest < 0x10_0000 && flags == ((n * 2 + z) * 2 + c) * 2 + v
    requires n < 2 && z < 2 && c < 2 && v < 2 && i < 2 && f < 2 && t < 2
    ensures n % 2 == n && (n * 2 + z) % 2 == z && ((n * 2 + z) * 2 + c) % 2 == c && flags % 2 == v
    ensures head % 0x10_0000 == rest && (head * 2 + i) % 2 == i && ((head * 2 + i) * 2 + f) % 2 == f
    ensures (((head * 2 + i) * 2 + f) * 2 + t) % 2 == t
  {
  }

  /** The status the current mode shows: its own number in the low bits. */
  function Shows(s: Core): Psr { s.cpsr.(low := s.cpsr.low | s.mode.Bits()) }

  /** MRS: the register gets the status word, bit by bit as above; the mode's number is one of
      seven. */
  lemma MrsMeans(s: Core, m: Ram, spsr: bool, rd: nat)
    requires rd < 16
    ensures var p := if spsr then s.spsr[s.mode.Bank()] else Shows(s);
            ExecMrs(s, m, spsr, rd) == Next(s.(r := s.r[rd := PsrWord(p)]), m)
    ensures !spsr && s.cpsr.low == 0 ==>
              ExecMrs(s, m, spsr, rd).core.r[rd] % 0x20 ==
              match s.mode
              case User => 16 case Fiq => 17 case Irq => 18 case Supervisor => 19
              case Abort => 23 case Undefined => 27 case System => 31
  {
    PsrWordBits(Shows(s));
    hide PsrWord;
  }

  /** A status after a write of `v` to the flag byte, the control byte or both: the flag byte is
      bits 31 to 24, the control byte bits 7 to 0. */
  predicate Merges(q: Psr, p: Psr, v: int, flags: bool, control: bool) {
    && (q.n <==> if flags then v / 0x8000_0000 % 2 == 1 else p.n)
    && (q.z <==> if flags then v / 0x4000_0000 % 2 == 1 else p.z)
    && (q.c <==> if flags then v / 0x2000_0000 % 2 == 1 else p.c)
    && (q.v <==> if flags then v / 0x1000_0000 % 2 == 1 else p.v)
    && q.rest / 0x1_0000 == (if flags then v / 0x100_0000 % 0x10 else p.rest / 0x1_0000)
    && q.rest % 0x1_0000 == p.rest % 0x1_0000
    && (q.i <==> if control then v / 0x80 % 2 == 1 else p.i)
    && (q.f <==> if control then v / 0x40 % 2 == 1 else p.f)
    && (q.t <==> if control then v / 0x20 % 2 == 1 else p.t)
  }

  /** The mode with a number; a number of no mode stands for System. */
  function ModeOf(number: int): Mode {
    if number == 16 then User
    else if number == 17 then Fiq
    else if number == 18 then Irq
    else if number == 19 then Supervisor
    else if number == 23 then Abort
    else if number == 27 then Mode.Undefined
    else System
  }

  /** CPSR after a write: the bytes named and with the control byte the mode, but no register of
      any mode. */
  ghost predicate CpsrLeft(t: Core, s: Core, v: Word, flags: bool, control: bool) {
    && Merges(t.cpsr, s.cpsr, v, flags, control)
    && t.mode == (if control then ModeOf(v % 0x20) else s.mode)
    && t.spsr == s.spsr && t.irqDelay == s.irqDelay
    && forall cell :: Banking.IsCell(cell) ==> Banking.At(t, cell) == Banking.At(s, cell)
  }

  /** SPSR after a write: that of the current mode alone; User and System have none. */
  ghost predicate SpsrLeft(t: Core, s: Core, v: Word, flags: bool, control: bool) {
    var b := s.mode.Bank();
    && t == s.(spsr := t.spsr)
    && (s.mode == User || s.mode == System ==> t == s)
    && (s.mode != User && s.mode != System ==>
          && Merges(t.spsr[b], s.spsr[b], v, flags, control)
          && ModeOf(t.spsr[b].low as int) == (if control then ModeOf(v % 0x20) else ModeOf(s.spsr[b].low as int))
          && forall k: nat :: k < 6 && k != b ==> t.spsr[k] == s.spsr[k])
  }

  /** MSR, from a rotated byte or a register. */
  lemma MsrMeans(s: Core, m: Ram, spsr: bool, flags: bool, control: bool, immediate: bool, operand: nat)
    returns (v: Word)
    requires operand < 0x1000
    ensures v == if immediate then Repeated(ROR, operand % 0x100, 2 * (operand / 0x100), false).0
                 else s.r[operand % 0x10]
    ensures var o := ExecMsr(s, m, spsr, flags, control, immediate, operand);
            && o.Next? && o.ram == m
            && if spsr then SpsrLeft(o.core, s, v, flags, control) else CpsrLeft(o.core, s, v, flags, control)
  {
    v := StatusOperand(s, immediate, operand);
    StatusOperandIs(s, immediate, operand);
    if spsr {
      SpsrWritten(s, v, flags, control);
    } else {
      CpsrWritten(s, v, flags, control);
    }
    hide StatusOperand, SetCpsr, SetSpsr, WordPsr, CpsrLeft, SpsrLeft, Repeated;
  }

  lemma StatusOperandIs(s: Core, immediate: bool, operand: nat)
    requires operand < 0x1000
    ensures StatusOperand(s, immediate, operand)
         == if immediate then Repeated(ROR, operand % 0x100, 2 * (operand / 0x100), false).0 else s.r[operand % 0x10]
  {
    if immediate {
      RotatedByte(operand % 0x100, operand / 0x100, false);
    }
    hide Repeated, RotateRight;
    assert immediate && operand / 0x100 == 0 ==> RotateRight(operand % 0x100, 0) == operand % 0x100 by {
      RotatedNone(operand % 0x100);
    }
  }

  lemma RotatedNone(v: Word)
    ensures RotateRight(v, 0) == v
  {
    ByteWidths();
  }

  lemma CpsrWritten(s: Core, v: Word, flags: bool, control: bool)
    ensures CpsrLeft(SetCpsr(s, WordPsr(v), flags, control), s, v, flags, control)
  {
    var p := Masked(Shows(s), WordPsr(v), flags, control);
    var s1 := if control then SwitchMode(s, FromBits(p.low)) else s;
    MaskedMerges(Shows(s), v, flags, control);
    ModeNumber(v);
    SwitchKeepsRest(s, FromBits(p.low));
    Banking.SwitchKeepsFile(s, FromBits(p.low), Banking.Cell(0, 0));
    assert SetCpsr(s, WordPsr(v), flags, control) == s1.(cpsr := p.(low := 0));
    forall cell | Banking.IsCell(cell)
      ensures Banking.At(SetCpsr(s, WordPsr(v), flags, control), cell) == Banking.At(s, cell)
    {
      Banking.SwitchKeepsFile(s, FromBits(p.low), cell);
      hide SwitchMode, Masked, WordPsr, SetCpsr, FromBits;
    }
    hide SwitchMode, Masked, WordPsr, SetCpsr, FromBits, ModeOf;
  }

  lemma MaskedMerges(p: Psr, v: Word, flags: bool, control: bool)
    ensures var q := Masked(p, WordPsr(v), flags, control);
            Merges(q, p, v, flags, control) && q.low == if control then WordPsr(v).low else p.low
  {
    FlagByte(v);
    MaskedFields(p, WordPsr(v), flags, control);
    hide Masked, WordPsr;
  }

  lemma MaskedFields(p: Psr, w: Psr, flags: bool, control: bool)
    ensures var q := Masked(p, w, flags, control);
            && q.n == (if flags then w.n else p.n) && q.z == (if flags then w.z else p.z)
            && q.c == (if flags then w.c else p.c) && q.v == (if flags then w.v else p.v)
            && q.rest / 0x1_0000 == (if flags then w.rest / 0x1_0000 else p.rest / 0x1_0000)
            && q.rest % 0x1_0000 == p.rest % 0x1_0000
            && q.i == (if control then w.i else p.i) && q.f == (if control then w.f else p.f)
            && q.t == (if control then w.t else p.t) && q.low == (if control then w.low else p.low)
  {
    Regrouped(w.rest, p.rest);
    hide Topped;
  }

  lemma FlagByte(v: Word)
    ensures var w := WordPsr(v);
            && (w.n <==> v / 0x8000_0000 % 2 == 1) && (w.z <==> v / 0x4000_0000 % 2 == 1)
            && (w.c <==> v / 0x2000_0000 % 2 == 1) && (w.v <==> v / 0x1000_0000 % 2 == 1)
            && (w.i <==> v / 0x80 % 2 == 1) && (w.f <==> v / 0x40 % 2 == 1) && (w.t <==> v / 0x20 % 2 == 1)
            && w.rest / 0x1_0000 == v / 0x100_0000 % 0x10
  {
    DivTwice(v, 0x100, 0x1_0000);
    TopFour(v / 0x100);
    TopBit1(v);
  }

  lemma TopBit1(v: Word)
    ensures v / 0x8000_0000 % 2 == v / 0x8000_0000
  {
  }

  lemma TopFour(u: nat)
    ensures u % 0x10_0000 / 0x1_0000 == u / 0x1_0000 % 0x10
  {
    var h, low := u / 0x1_0000, u % 0x1_0000;
    Quotient(u, 0x1_0000);
    Quotient(h, 0x10);
    QuotientIs(u, 0x10_0000, h / 0x10, h % 0x10 * 0x1_0000 + low);
    QuotientIs(u % 0x10_0000, 0x1_0000, h % 0x10, low);
  }

  lemma Regrouped(a: Rest, b: Rest)
    ensures Topped(a, b) / 0x1_0000 == a / 0x1_0000 && Topped(a, b) % 0x1_0000 == b % 0x1_0000
  {
    QuotientIs(Topped(a, b), 0x1_0000, a / 0x1_0000, b % 0x1_0000);
  }

  lemma ModeNumber(v: Word)
    ensures FromBits(WordPsr(v).low) == ModeOf(v % 0x20) == ModeOf(WordPsr(v).low as int)
  {
  }

  lemma SpsrWritten(s: Core, v: Word, flags: bool, control: bool)
    ensures SpsrLeft(SetSpsr(s, WordPsr(v), flags, control), s, v, flags, control)
  {
    MaskedMerges(s.spsr[s.mode.Bank()], v, flags, control);
    ModeNumber(v);
    hide Masked, WordPsr, ModeOf, Merges;
  }

  // ------------------------------------------------------------------ conditions

  /** After an instruction that left result `r`, carry and overflow in the flags: what each of
      the sixteen conditions says. */
  lemma ConditionsMean(p: Psr, r: Word, carry: bool, overflow: bool, cond: nat)
    requires cond < 16
    ensures var q, negative := p.(n := r >= 0x8000_0000, z := r == 0, c := carry, v := overflow), Signed(r) < 0;
            CheckCond(q, cond) <==>
            if cond == 0 then r == 0
            else if cond == 2 then carry
            else if cond == 4 then negative
            else if cond == 6 then overflow
            else if cond == 8 then carry && r != 0
            else if cond == 10 then negative == overflow
            else if cond == 12 then r != 0 && negative == overflow
            else if cond == 14 then true
            else !CheckCond(q, cond - 1)
  {
    SignedIs(r);
  }
}
