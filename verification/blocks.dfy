/// LDM and STM: where each register goes, and that the two undo each other
/// (ARM DDI 0100, section A5.4).
module Blocks {
  import opened Arithmetic
  import opened Alu
  import opened CpuState
  import opened Banking
  import opened Arm

  /** The RAM repeats evenly through the 32-bit address space. */
  predicate Mirrors(m: Ram) { BASE / 4 % |m| == 0 }

  // -------------------------------------------------------------- mirrored addresses

  /** `d` words on, modulo the mirror. */
  function Ahead(m: Ram, i: nat, d: nat): (r: nat)
    ensures r < |m|
  {
    (i + d) % |m|
  }

  /** Stepping by words steps through the RAM, across its end and address wrap. */
  lemma IndexAhead(m: Ram, a: Word, d: nat)
    requires Mirrors(m) && d <= 16
    ensures Index(m, Offset(a, 4 * d)) == Ahead(m, Index(m, a), d)
  {
    var n, q := |m|, a / 4;
    var k := BASE / 4 / n;
    WordsOn(a, d);
    Quotient(BASE / 4, n);
    FoldTwice(q, d, n);
    hide Offset, LowWord;
    if q + d >= BASE / 4 {
      FoldWhole(q + d, k, n);
    }
  }

  lemma WordsOn(a: Word, d: nat)
    requires d <= 16
    ensures Offset(a, 4 * d) / 4 == if a / 4 + d < BASE / 4 then a / 4 + d else a / 4 + d - BASE / 4
  {
  }

  lemma FoldTwice(q: nat, d: nat, n: nat)
    requires n > 0
    ensures (q % n + d) % n == (q + d) % n
  {
    Quotient(q, n);
    Quotient(q % n + d, n);
    Distribute(q / n, (q % n + d) / n, n);
    QuotientIs(q + d, n, q / n + (q % n + d) / n, (q % n + d) % n);
  }

  lemma FoldWhole(x: nat, k: nat, n: nat)
    requires n > 0 && x >= k * n
    ensures (x - k * n) % n == x % n
  {
    Quotient(x - k * n, n);
    Distribute((x - k * n) / n, k, n);
    QuotientIs(x, n, (x - k * n) / n + k, (x - k * n) % n);
  }

  lemma AheadTwice(m: Ram, i: nat, d: nat, e: nat)
    ensures Ahead(m, Ahead(m, i, d), e) == Ahead(m, i, d + e)
  {
    FoldTwice(i + d, e, |m|);
  }

  /** Fewer than 16 words ahead is never the same word. */
  lemma AheadDiffers(m: Ram, i: nat, d: nat)
    requires i < |m| && 1 <= d < 16
    ensures Ahead(m, i, d) != i
  {
    if i + d < |m| {
      QuotientIs(i + d, |m|, 0, i + d);
    } else {
      QuotientIs(i + d, |m|, 1, i + d - |m|);
    }
  }

  lemma AheadNone(m: Ram, i: nat)
    requires i < |m|
    ensures Ahead(m, i, 0) == i
  {
    QuotientIs(i, |m|, 0, i);
  }

  // ------------------------------------------------------------- stores and loads

  lemma {:induction false} BelowGrows(list: seq<bool>, i: nat, j: nat)
    requires i <= j <= |list|
    ensures Below(list, i) <= Below(list, j) <= Below(list, i) + (j - i)
    decreases j
  {
    if i < j {
      BelowGrows(list, i, j - 1);
    }
  }

  /** Words past the block keep their contents. */
  lemma {:induction false} StoreKeeps(s: Core, m: Ram, list: seq<bool>, cur: Word, i: nat, x: nat)
    requires Mirrors(m) && |list| == 16 && i <= 16 && x < |m|
    requires forall d :: 0 <= d < Below(list, 16) - Below(list, i) ==> Ahead(m, Index(m, cur), d) != x
    ensures StoreFrom(s, m, list, cur, i)[x] == m[x]
    decreases 16 - i
  {
    if i < 16 {
      BelowGrows(list, i + 1, 16);
      if !list[i] {
        StoreKeeps(s, m, list, cur, i + 1, x);
      } else {
        var m1 := WriteWord(m, cur, Stored(s, i));
        BelowGrows(list, i, 16);
        IndexAhead(m, cur, 1);
        AheadNone(m, Index(m, cur));
        assert Index(m, cur) != x;
        forall d | 0 <= d < Below(list, 16) - Below(list, i + 1)
          ensures Ahead(m1, Index(m1, Offset(cur, 4)), d) != x
        {
          AheadTwice(m, Index(m, cur), 1, d);
        }
        hide Index, Ahead;
        StoreKeeps(s, m1, list, Offset(cur, 4), i + 1, x);
      }
    }
  }

  /** Register `j` is stored as many words on as there are listed registers between. */
  lemma {:induction false} StorePlaces(s: Core, m: Ram, list: seq<bool>, cur: Word, i: nat, j: nat)
    requires Mirrors(m) && |list| == 16 && i <= j < 16 && list[j]
    ensures Below(list, j) >= Below(list, i)
    ensures StoreFrom(s, m, list, cur, i)[Ahead(m, Index(m, cur), Below(list, j) - Below(list, i))] == Stored(s, j)
    decreases 16 - i
  {
    BelowGrows(list, i, j);
    BelowGrows(list, i, 16);
    if !list[i] {
      StorePlaces(s, m, list, cur, i + 1, j);
    } else {
      var m1 := WriteWord(m, cur, Stored(s, i));
      var here := Index(m, cur);
      IndexAhead(m, cur, 1);
      if j == i {
        AheadNone(m, here);
        BelowGrows(list, 0, i);
        BelowGrows(list, i + 1, 16);
        NotPassedAgain(m, m1, cur, Below(list, 16) - Below(list, i + 1));
        StoreKeeps(s, m1, list, Offset(cur, 4), i + 1, here);
      } else {
        BelowGrows(list, i + 1, j);
        AheadTwice(m, here, 1, Below(list, j) - Below(list, i + 1));
        hide Index, Ahead;
        StorePlaces(s, m1, list, Offset(cur, 4), i + 1, j);
      }
    }
  }

  lemma NotPassedAgain(m: Ram, m1: Ram, cur: Word, n: int)
    requires Mirrors(m) && |m1| == |m| && n <= 15
    ensures forall d :: 0 <= d < n ==> Ahead(m1, Index(m1, Offset(cur, 4)), d) != Index(m, cur)
  {
    IndexAhead(m, cur, 1);
    forall d | 0 <= d < n
      ensures Ahead(m1, Index(m1, Offset(cur, 4)), d) != Index(m, cur)
    {
      AheadTwice(m, Index(m, cur), 1, d);
      AheadDiffers(m, Index(m, cur), d + 1);
    }
  }

  /** Each listed register is loaded from its place, the others are kept. */
  lemma {:induction false} LoadPlaces(r: Regs, m: Ram, list: seq<bool>, cur: Word, i: nat, j: nat)
    requires |list| == 16 && i <= 16 && j < 16
    ensures i <= j && list[j] ==>
      LoadFrom(r, m, list, cur, i)[j] == ReadWord(m, Offset(cur, 4 * (Below(list, j) - Below(list, i))))
    ensures j < i || !list[j] ==> LoadFrom(r, m, list, cur, i)[j] == r[j]
    decreases 16 - i
  {
    if i < 16 {
      if !list[i] {
        LoadPlaces(r, m, list, cur, i + 1, j);
      } else {
        hide ReadWord, Offset;
        LoadPlaces(r[i := ReadWord(m, cur)], m, list, Offset(cur, 4), i + 1, j);
        if j == i {
          OffsetNone(cur);
        } else if j > i {
          OffsetTwice(cur, 4, 4 * (Below(list, j) - Below(list, i + 1)));
        }
      }
    }
  }

  // --------------------------------------------------------------------- the inverse

  /** The load that undoes a store: IA with DB, IB with DA, and back. */
  function Opposite(b: Block): Block { b.(p := !b.p, u := !b.u, l := !b.l) }

  /** An STM with writeback, a nonempty list, and neither PC nor the base in it. */
  predicate Plain(b: Block) {
    b.Valid() && !b.l && b.w && Count(b) > 0 && !b.list[PC] && !b.list[b.rn]
  }

  /** Both transfers use the same words, and the base returns to where it was. */
  lemma SameBlock(base: Word, b: Block)
    requires b.Valid()
    ensures Start(Final(base, b), Opposite(b)) == Start(base, b)
    ensures Final(Final(base, b), Opposite(b)) == base
  {
    var n: int := Count(b);
    hide Below;
    assert Count(Opposite(b)) == n;
    OffsetTwice(base, 4 * n, -4 * n);
    OffsetTwice(base, -4 * n, 4 * n);
    OffsetTwice(base, 4 * n, 4 - 4 * n);
    OffsetTwice(base, -4 * n, 4);
    OffsetTwice(base, -4 * n, 0);
    OffsetTwice(base, 4 * n, 0 - 4 * n);
    assert Offset(base, 0) == base;
  }

  function Place(base: Word, b: Block, i: nat): Word
    requires b.Valid() && i < 16
  {
    Offset(Start(base, b), 4 * Below(b.list, i))
  }

  /** STM puts each listed register of the transfer mode at the start address plus four for
      every lower listed register: the base as it was, PC one word further ahead. */
  lemma StmPlaces(s: Core, m: Ram, b: Block, i: nat)
    requires Mirrors(m) && b.Valid() && !b.l && i < 16 && b.list[i]
    ensures var o := ExecBlock(s, m, b);
            && o.Next? && |o.ram| == |m| && o.core.mode == s.mode
            && o.core.r[b.rn] == (if b.w then Final(s.r[b.rn], b) else s.r[b.rn])
            && ReadWord(o.ram, Place(s.r[b.rn], b, i))
            == if i == PC then Offset(s.r[PC], 4) else At(s, Named(TransferMode(s, b), i))
  {
    var base, tm := s.r[b.rn], TransferMode(s, b);
    var t := SwitchMode(s, tm);
    BelowGrows(b.list, 0, i);
    BelowGrows(b.list, i, 16);
    BelowListed(b.list, i);
    StorePlaces(t, m, b.list, Start(base, b), 0, i);
    IndexAhead(m, Start(base, b), Below(b.list, i));
    StoredIs(s, tm, i);
    ThereAndBack(s, tm, b.rn);
    hide SwitchMode, Mirrors, Index, Ahead, StoreFrom, Start, Final, Stored, At, Named, Below;
  }

  lemma BelowListed(list: seq<bool>, i: nat)
    requires |list| == 16 && i < 16 && list[i]
    ensures Below(list, 16) > 0
  {
    BelowGrows(list, i + 1, 16);
  }

  lemma StoredIs(s: Core, tm: Mode, i: nat)
    requires i < 16
    ensures IsCell(Named(tm, i))
    ensures Stored(SwitchMode(s, tm), i) == if i == PC then Offset(s.r[PC], 4) else At(s, Named(tm, i))
  {
    SwitchKeepsFile(s, tm, Named(tm, i));
    hide SwitchMode;
  }

  /** Switching away and back brings back every register. */
  lemma ThereAndBack(s: Core, tm: Mode, k: nat)
    requires k < 16
    ensures SwitchMode(SwitchMode(s, tm), s.mode).mode == s.mode
    ensures SwitchMode(SwitchMode(s, tm), s.mode).r[k] == s.r[k]
  {
    var c := Named(s.mode, k);
    SwitchKeepsFile(s, tm, c);
    SwitchKeepsFile(SwitchMode(s, tm), s.mode, c);
    hide SwitchMode;
  }

  /** What an LDM does, cell by cell: a listed base is loaded and not written back; loading PC
      jumps, with S set after restoring the status. */
  lemma LdmLoads(h: Core, m: Ram, b: Block, c: Cell)
    requires b.Valid() && b.l && Count(b) > 0 && IsCell(c)
    ensures var (core, m') := Transferred(h, m, b);
            var tm := TransferMode(h, b);
            && m' == m && core.mode == h.mode
            && ExecBlock(h, m, b) == (if b.list[PC] then Jump(if b.s then RestoreCpsr(core) else core, m)
                                      else Next(core, m))
            && At(core, c) ==
                 if c == Named(h.mode, b.rn) && b.w && !b.list[b.rn] then Final(h.r[b.rn], b)
                 else if b.list[c.reg] && c == Named(tm, c.reg) then ReadWord(m, Place(h.r[b.rn], b, c.reg))
                 else At(h, c)
  {
    var base, tm := h.r[b.rn], TransferMode(h, b);
    var t := SwitchMode(h, tm);
    var start := Start(base, b);
    SwitchKeepsFile(h, tm, c);
    LoadPlaces(t.r, m, b.list, start, 0, c.reg);
    var t1 := t.(r := LoadFrom(t.r, m, b.list, start, 0));
    assert t1.mode == tm;
    SwitchKeepsFile(t1, h.mode, c);
    LoadedCell(t, t1, c);
    var s1 := SwitchMode(t1, h.mode);
    WriteChangesOneCell(s1, b.rn, Final(base, b), c);
    hide SwitchMode, Start, Final, LoadFrom, At, Named, IsCell, Below, RestoreCpsr;
  }

  lemma LoadedCell(t: Core, t1: Core, c: Cell)
    requires IsCell(c) && t1 == t.(r := t1.r)
    ensures At(t1, c) == if c == Named(t.mode, c.reg) then t1.r[c.reg] else At(t, c)
    ensures c == Named(t.mode, c.reg) ==> At(t, c) == t.r[c.reg]
  {
  }

  /** The cells a transfer reaches: the base, and the listed ones of the transfer mode. */
  predicate Reached(s: Core, b: Block, c: Cell)
    requires b.Valid() && IsCell(c)
  {
    c == Named(s.mode, b.rn) || (b.list[c.reg] && c == Named(TransferMode(s, b), c.reg))
  }

  /** STM and the opposite LDM, with anything in between that keeps the mode,
      the base and the stored words: every listed register of the transfer mode
      and the base are as before the STM, and no other cell is touched by the LDM. */
  lemma StmThenLdm(s: Core, m: Ram, b: Block, h: Core, m': Ram)
    requires Mirrors(m) && Plain(b) && |m'| == |m|
    requires var o := ExecBlock(s, m, b);
             && h.mode == s.mode && h.r[b.rn] == o.core.r[b.rn]
             && forall i :: 0 <= i < 16 && b.list[i] ==>
                  ReadWord(m', Place(s.r[b.rn], b, i)) == ReadWord(o.ram, Place(s.r[b.rn], b, i))
    ensures var o := ExecBlock(h, m', Opposite(b));
            && o.Next? && o.ram == m'
            && o.core.mode == s.mode && o.core.r[b.rn] == s.r[b.rn]
            && (forall i :: 0 <= i < 16 && b.list[i] ==>
                  At(o.core, Named(TransferMode(s, b), i)) == At(s, Named(TransferMode(s, b), i)))
            && forall c :: IsCell(c) && !Reached(s, b, c) ==> At(o.core, c) == At(h, c)
  {
    var base, tm, l := s.r[b.rn], TransferMode(s, b), Opposite(b);
    var i0 := FirstListed(b.list);
    StmPlaces(s, m, b, i0);
    SameBlock(base, b);
    var o := ExecBlock(h, m', l);
    assert TransferMode(h, l) == tm && Count(l) == Count(b);
    LdmLoads(h, m', l, Named(s.mode, b.rn));
    VisibleBase(o.core, b.rn);
    hide ExecBlock, Transferred, Start, Final, SwitchMode, At, Below, Mirrors, RestoreCpsr;
    forall i | 0 <= i < 16 && b.list[i]
      ensures At(o.core, Named(tm, i)) == At(s, Named(tm, i))
    {
      StmPlaces(s, m, b, i);
      LdmLoads(h, m', l, Named(tm, i));
    }
    forall c | IsCell(c) && !Reached(s, b, c)
      ensures At(o.core, c) == At(h, c)
    {
      LdmLoads(h, m', l, c);
    }
  }

  lemma VisibleBase(s: Core, k: nat)
    requires k < 16
    ensures IsCell(Named(s.mode, k)) && At(s, Named(s.mode, k)) == s.r[k]
  {
  }

  function FirstListed(list: seq<bool>): (i: nat)
    requires |list| == 16 && Below(list, 16) > 0
    ensures i < 16 && list[i]
  {
    FirstListedBelow(list, 16)
  }

  function FirstListedBelow(list: seq<bool>, n: nat): (i: nat)
    requires n <= |list| && Below(list, n) > 0
    ensures i < n && list[i]
  {
    if list[n - 1] then n - 1 else FirstListedBelow(list, n - 1)
  }

  // ------------------------------------------------------------------ in numbers

  /** The listed registers below `i`. */
  function Listed(list: seq<bool>, i: nat): set<nat>
    requires i <= |list|
  {
    set j: nat | j < i && list[j]
  }

  lemma {:induction false} BelowIsCount(list: seq<bool>, i: nat)
    requires i <= |list|
    ensures Below(list, i) == |Listed(list, i)|
  {
    if i > 0 {
      BelowIsCount(list, i - 1);
      assert Listed(list, i) == Listed(list, i - 1) + if list[i - 1] then {i - 1} else {};
    } else {
      assert Listed(list, 0) == {};
    }
  }

  /** The four addressing modes: increment or decrement, before or after; the lowest register
      always at the lowest address, and the base moved by the whole block.  The S bit means the
      user's registers unless PC is loaded. */
  lemma PlacesMean(s: Core, b: Block, i: nat)
    requires b.Valid() && i < 16
    ensures var base, n, k := s.r[b.rn], |Listed(b.list, 16)|, |Listed(b.list, i)|;
            && Place(base, b, i) == Offset(base, if b.u && !b.p then 4 * k
                                                 else if b.u then 4 * k + 4
                                                 else if b.p then 4 * k - 4 * n
                                                 else 4 * k - 4 * n + 4)
            && Final(base, b) == Offset(base, if b.u then 4 * n else -4 * n)
            && (Count(b) == 0 <==> b.list == seq(16, _ => false))
    ensures Named(TransferMode(s, b), i)
         == if b.s && !(b.l && b.list[15]) then Cell(0, i) else Named(s.mode, i)
  {
    var base := s.r[b.rn];
    BelowIsCount(b.list, 16);
    BelowIsCount(b.list, i);
    NoneListed(b.list);
    if b.u {
      OffsetTwice(base, if b.p then 4 else 0, 4 * Below(b.list, i));
    } else {
      OffsetTwice(base, (if b.p then 0 else 4) - 4 * Count(b), 4 * Below(b.list, i));
    }
    hide Below, Offset;
  }

  lemma NoneListed(list: seq<bool>)
    requires |list| == 16
    ensures Below(list, 16) == 0 <==> list == seq(16, _ => false)
  {
    if Below(list, 16) > 0 {
      assert list[FirstListed(list)];
    } else {
      forall i | 0 <= i < 16 ensures !list[i] {
        if list[i] { BelowListed(list, i); }
      }
      assert list == seq(16, _ => false);
    }
  }

  /** STM changes no other word of memory, no register but a base written back, and an empty
      list changes nothing. */
  lemma StmKeeps(s: Core, m: Ram, b: Block, x: nat, c: Cell)
    requires Mirrors(m) && b.Valid() && !b.l && x < |m| && IsCell(c)
    requires forall i :: 0 <= i < 16 && b.list[i] ==> Place(s.r[b.rn], b, i) / 4 % |m| != x
    ensures var o := ExecBlock(s, m, b);
            && o.Next? && |o.ram| == |m| && o.ram[x] == m[x]
            && At(o.core, c)
               == if c == Named(s.mode, b.rn) && b.w && Count(b) > 0 then Final(s.r[b.rn], b) else At(s, c)
  {
    var base, tm := s.r[b.rn], TransferMode(s, b);
    var t := SwitchMode(s, tm);
    BelowGrows(b.list, 0, 16);
    if Count(b) > 0 {
      forall d | 0 <= d < Below(b.list, 16) - Below(b.list, 0)
        ensures Ahead(m, Index(m, Start(base, b)), d) != x
      {
        var i := Holder(b.list, d);
        IndexAhead(m, Start(base, b), d);
        assert Place(base, b, i) == Offset(Start(base, b), 4 * d);
      }
      StoreKeeps(t, m, b.list, Start(base, b), 0, x);
      SwitchKeepsFile(s, tm, c);
      SwitchKeepsFile(t, s.mode, c);
      WriteChangesOneCell(SwitchMode(t, s.mode), b.rn, Final(base, b), c);
      assert t.mode == tm && SwitchMode(t, s.mode).mode == s.mode;
    }
    hide SwitchMode, StoreFrom, Start, Final, At, Named, Below, Mirrors;
  }

  /** The register stored `d` words up. */
  lemma Holder(list: seq<bool>, d: nat) returns (i: nat)
    requires |list| == 16 && d < Below(list, 16)
    ensures i < 16 && list[i] && Below(list, i) == d
  {
    i := 16;
    while Below(list, i) > d
      invariant i <= 16 && d <= Below(list, i)
      invariant i == 16 || Below(list, i) > d || (list[i] && Below(list, i) == d)
      decreases i
    {
      i := i - 1;
    }
  }
}
