/// Flag arithmetic of the ALU: multi-word addition, subtraction and
/// comparison, and the barrel shifter (ARM DDI 0100, sections A3.2 and A5.1).
module Alu {
  import opened Arithmetic

  const BASE := 0x1_0000_0000
  const SIGN := 0x8000_0000

  type Word = w: int | 0 <= w < BASE

  type Rest = n: int | 0 <= n < 0x10_0000

  /** The status register by field; `rest` is bits 27 to 8, `low` bits 4 to 0. */
  datatype Psr = Psr(n: bool, z: bool, c: bool, v: bool, i: bool, f: bool, t: bool, rest: Rest, low: bv5)

  predicate Negative(w: Word) { w >= SIGN }

  function Not(w: Word): Word { BASE - 1 - w }

  /** 32-bit wrap-around. */
  function LowWord(x: int): Word { x % BASE }

  function Bit(b: bool): nat { if b then 1 else 0 }

  // ------------------------------------------------------------ flag arithmetic

  /** Sum with carry in; result, carry out and signed overflow. */
  function AddFlags(a: Word, b: Word, carryIn: bool): (Word, bool, bool) {
    var sum := a + b + Bit(carryIn);
    var r: Word := if sum < BASE then sum else sum - BASE;
    (r, sum >= BASE, Negative(a) != Negative(r) && Negative(b) != Negative(r))
  }

  function SubFlags(a: Word, b: Word, carryIn: bool): (Word, bool, bool) { AddFlags(a, Not(b), carryIn) }

  function Flagged(p: Psr, r: (Word, bool, bool)): (Word, Psr) {
    (r.0, p.(n := Negative(r.0), z := r.0 == 0, c := r.1, v := r.2))
  }

  function Adds(p: Psr, a: Word, b: Word): (Word, Psr) { Flagged(p, AddFlags(a, b, false)) }

  function Adcs(p: Psr, a: Word, b: Word): (Word, Psr) { Flagged(p, AddFlags(a, b, p.c)) }

  function Subs(p: Psr, a: Word, b: Word): (Word, Psr) { Flagged(p, SubFlags(a, b, true)) }

  function Sbcs(p: Psr, a: Word, b: Word): (Word, Psr) { Flagged(p, SubFlags(a, b, p.c)) }

  function CheckCond(p: Psr, cond: nat): bool {
    match cond
    case 0x0 => p.z
    case 0x1 => !p.z
    case 0x2 => p.c
    case 0x3 => !p.c
    case 0x4 => p.n
    case 0x5 => !p.n
    case 0x6 => p.v
    case 0x7 => !p.v
    case 0x8 => p.c && !p.z
    case 0x9 => !p.c || p.z
    case 0xA => p.n == p.v
    case 0xB => p.n != p.v
    case 0xC => !p.z && p.n == p.v
    case 0xD => p.z || p.n != p.v
    case 0xE => true
    case _ => false
  }

  // -------------------------------------------------------------- logical operations

  /** Bit by bit, `n` bits from the lowest. */
  function Bitwise(f: (bool, bool) -> bool, a: nat, b: nat, n: nat): (r: nat)
    ensures r < Pow2(n)
    decreases n
  {
    if n == 0 then 0 else 2 * Bitwise(f, a / 2, b / 2, n - 1) + Bit(f(a % 2 == 1, b % 2 == 1))
  }

  function Logical(f: (bool, bool) -> bool, a: Word, b: Word): Word {
    Pow2Known();
    Bitwise(f, a, b, 32)
  }

  function And(a: Word, b: Word): Word { Logical((x, y) => x && y, a, b) }

  function Or(a: Word, b: Word): Word { Logical((x, y) => x || y, a, b) }

  function Xor(a: Word, b: Word): Word { Logical((x, y) => x != y, a, b) }

  /** Bit 31 of the result is the operation on bits 31 of the operands. */
  lemma LogicalSign(f: (bool, bool) -> bool, a: Word, b: Word)
    ensures Negative(Logical(f, a, b)) == f(Negative(a), Negative(b))
  {
    Pow2Known();
    TopBit(f, a, b, 31);
  }

  lemma {:induction false} TopBit(f: (bool, bool) -> bool, a: nat, b: nat, n: nat)
    requires a < 2 * Pow2(n) && b < 2 * Pow2(n)
    ensures Bitwise(f, a, b, n + 1) >= Pow2(n) <==> f(a >= Pow2(n), b >= Pow2(n))
  {
    if n > 0 {
      TopBit(f, a / 2, b / 2, n - 1);
    } else {
      assert Bitwise(f, a / 2, b / 2, 0) == 0;
    }
  }

  // --------------------------------------------------------- multi-word numbers

  function Pow(n: nat): (r: nat)
    ensures r > 0
  {
    if n == 0 then 1 else BASE * Pow(n - 1)
  }

  /** The number whose words, least significant first, are `ws`. */
  function Value(ws: seq<Word>): nat {
    if ws == [] then 0
    else
      var k := |ws| - 1;
      MulNonNegative(ws[k], Pow(k));
      Value(ws[..k]) + ws[k] * Pow(k)
  }

  /** The same words read in two's complement. */
  function SignedValue(ws: seq<Word>): int
    requires ws != []
  {
    if Negative(ws[|ws| - 1]) then Value(ws) - Pow(|ws|) else Value(ws)
  }

  /** ADDS on the lowest words, then ADCS on each higher pair. */
  function AddChain(p: Psr, xs: seq<Word>, ys: seq<Word>): (r: (seq<Word>, Psr))
    requires |xs| == |ys|
    ensures |r.0| == |xs|
  {
    if xs == [] then ([], p)
    else
      var k := |xs| - 1;
      var (low, q) := AddChain(p, xs[..k], ys[..k]);
      var (w, q') := if k == 0 then Adds(q, xs[0], ys[0]) else Adcs(q, xs[k], ys[k]);
      (low + [w], q')
  }

  /** SUBS on the lowest words, then SBCS on each higher pair. */
  function SubChain(p: Psr, xs: seq<Word>, ys: seq<Word>): (r: (seq<Word>, Psr))
    requires |xs| == |ys|
    ensures |r.0| == |xs|
  {
    if xs == [] then ([], p)
    else
      var k := |xs| - 1;
      var (low, q) := SubChain(p, xs[..k], ys[..k]);
      var (w, q') := if k == 0 then Subs(q, xs[0], ys[0]) else Sbcs(q, xs[k], ys[k]);
      (low + [w], q')
  }

  lemma ValueLast(low: seq<Word>, w: Word)
    ensures Value(low + [w]) == Value(low) + w * Pow(|low|)
  {
    assert (low + [w])[..|low|] == low;
  }

  lemma {:induction false} ValueBound(ws: seq<Word>)
    ensures Value(ws) < Pow(|ws|)
  {
    if ws != [] {
      var k := |ws| - 1;
      ValueBound(ws[..k]);
      TopDigit(ws[k], Pow(k));
    }
  }

  lemma TopDigit(w: int, p: nat)
    requires 0 <= w < BASE
    ensures w * p + p <= BASE * p
  {
    MulMonotone(w + 1, BASE, p);
    Distribute(w, 1, p);
  }

  /** The words stored are the sum, and C is what it carries out. */
  lemma {:induction false} AddChainIsSum(p: Psr, xs: seq<Word>, ys: seq<Word>)
    requires |xs| == |ys| > 0
    ensures var (zs, q) := AddChain(p, xs, ys);
            Value(zs) + Bit(q.c) * Pow(|xs|) == Value(xs) + Value(ys)
  {
    var k := |xs| - 1;
    var (low, q) := AddChain(p, xs[..k], ys[..k]);
    if k > 0 {
      AddChainIsSum(p, xs[..k], ys[..k]);
    }
    var carry := if k == 0 then 0 else Bit(q.c);
    var (zs, q') := AddChain(p, xs, ys);
    var w: int, x: int, y: int := zs[k], xs[k], ys[k];
    ValueLast(low, zs[k]);
    assert w + Bit(q'.c) * BASE == x + y + carry;
    hide AddChain, Value;
    Carry(w, Bit(q'.c), x, y, carry, Pow(k));
  }

  lemma Carry(w: int, out: int, x: int, y: int, carry: int, p: int)
    requires w + out * BASE == x + y + carry
    ensures w * p + out * (BASE * p) == x * p + y * p + carry * p
  {
    assert (w + out * BASE) * p == (x + y + carry) * p;
  }

  /** The words stored are the difference, modulo the width, and C is set
      exactly when there is no borrow. */
  lemma {:induction false} SubChainIsDifference(p: Psr, xs: seq<Word>, ys: seq<Word>)
    requires |xs| == |ys| > 0
    ensures var (zs, q) := SubChain(p, xs, ys);
            && Value(zs) == Value(xs) - Value(ys) + Bit(!q.c) * Pow(|xs|)
            && (q.c <==> Value(xs) >= Value(ys))
  {
    var k := |xs| - 1;
    var (low, q) := SubChain(p, xs[..k], ys[..k]);
    if k > 0 {
      SubChainIsDifference(p, xs[..k], ys[..k]);
    }
    var borrow := if k == 0 then 0 else Bit(!q.c);
    var (zs, q') := SubChain(p, xs, ys);
    var w: int, x: int, y: int := zs[k], xs[k], ys[k];
    ValueLast(low, zs[k]);
    assert w == x - y - borrow + Bit(!q'.c) * BASE;
    hide SubChain;
    hide Value;
    ValueBound(zs);
    ValueBound(xs);
    ValueBound(ys);
    Borrow(w, Bit(!q'.c), x, y, borrow, Pow(k));
  }

  lemma Borrow(w: int, out: int, x: int, y: int, borrow: int, p: int)
    requires w == x - y - borrow + out * BASE
    ensures w * p == x * p - y * p - borrow * p + out * (BASE * p)
  {
    Carry(w, 0 - out, x, 0 - y, 0 - borrow, p);
  }

  /** After the chain, N differs from V exactly when the first number is the
      smaller in two's complement. */
  lemma SubChainSigned(p: Psr, xs: seq<Word>, ys: seq<Word>)
    requires |xs| == |ys| > 0
    ensures var q := SubChain(p, xs, ys).1;
            q.n != q.v <==> SignedValue(xs) < SignedValue(ys)
  {
    var k := |xs| - 1;
    var lowX, lowY := xs[..k], ys[..k];
    var borrow := if k == 0 then 0 else Bit(!SubChain(p, lowX, lowY).1.c);
    if k > 0 {
      SubChainIsDifference(p, lowX, lowY);
    }
    assert borrow == 1 <==> Value(lowX) < Value(lowY);
    var q := SubChain(p, xs, ys).1;
    var tx, ty := TopSigned(xs[k]), TopSigned(ys[k]);
    assert q.n != q.v <==> tx - ty - borrow < 0;
    SignedSplit(xs);
    SignedSplit(ys);
    ValueBound(lowX);
    ValueBound(lowY);
    OrderByTop(tx, Value(lowX), ty, Value(lowY), Pow(k));
  }

  function TopSigned(w: Word): int { if Negative(w) then w - BASE else w }

  lemma SignedSplit(ws: seq<Word>)
    requires ws != []
    ensures SignedValue(ws) == TopSigned(ws[|ws| - 1]) * Pow(|ws| - 1) + Value(ws[..|ws| - 1])
  {
    var k := |ws| - 1;
    assert (ws[k] - BASE) * Pow(k) == ws[k] * Pow(k) - BASE * Pow(k);
  }

  /** Mixed-radix order: the top digit decides, then the rest. */
  lemma OrderByTop(tx: int, x: nat, ty: int, y: nat, p: nat)
    requires x < p && y < p
    ensures tx * p + x < ty * p + y <==> tx < ty || (tx == ty && x < y)
  {
    if tx < ty {
      MulMonotone(tx + 1, ty, p);
      Distribute(tx, 1, p);
    } else if ty < tx {
      MulMonotone(ty + 1, tx, p);
      Distribute(ty, 1, p);
    }
  }

  /** The conditions after a multi-word compare decide both orders, and after a
      one-word compare all of EQ, NE, HI, LS, GT and LE are exact as well. */
  lemma CompareDecides(p: Psr, xs: seq<Word>, ys: seq<Word>)
    requires |xs| == |ys| > 0
    ensures var q, x, y := SubChain(p, xs, ys).1, Value(xs), Value(ys);
            && (CheckCond(q, 0x2) <==> x >= y) && (CheckCond(q, 0x3) <==> x < y)
    ensures var q, x, y := SubChain(p, xs, ys).1, SignedValue(xs), SignedValue(ys);
            && (CheckCond(q, 0xA) <==> x >= y) && (CheckCond(q, 0xB) <==> x < y)
    ensures |xs| == 1 ==>
      var q, x, y := SubChain(p, xs, ys).1, Value(xs), Value(ys);
      && (CheckCond(q, 0x0) <==> x == y) && (CheckCond(q, 0x1) <==> x != y)
      && (CheckCond(q, 0x8) <==> x > y) && (CheckCond(q, 0x9) <==> x <= y)
    ensures |xs| == 1 ==>
      var q, x, y := SubChain(p, xs, ys).1, SignedValue(xs), SignedValue(ys);
      && (CheckCond(q, 0xC) <==> x > y) && (CheckCond(q, 0xD) <==> x <= y)
  {
    SubChainIsDifference(p, xs, ys);
    SubChainSigned(p, xs, ys);
    if |xs| == 1 {
      OneWord(xs[0]);
      OneWord(ys[0]);
      assert xs == [xs[0]] && ys == [ys[0]];
      assert SubChain(p, xs, ys).1.z <==> xs[0] == ys[0];
    }
  }

  lemma OneWord(w: Word)
    ensures Value([w]) == w && SignedValue([w]) == TopSigned(w)
  {
    assert [w][..0] == [];
    assert Pow(1) == BASE * Pow(0);
  }
}
