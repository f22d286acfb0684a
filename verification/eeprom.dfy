/// The bit-serial EEPROM: the chip one bit at a time, and the block store it
/// implements for a driver that frames its transactions.
module Eeprom {
  import opened Arithmetic

  type Bit = b: int | 0 <= b < 2

  const WIDTH := 0x1_0000_0000_0000_0000

  datatype Phase = Idle | ReadingCommand | ReadingData | WritingData

  /** Everything the chip keeps, in the order of the source's fields. */
  datatype Chip = Chip(data: seq<Byte>, phase: Phase, bits: nat, command: nat, address: nat, buffer: nat, pos: nat)

  // ------------------------------------------------------------------ bits and numbers

  /** The number a run of bits spells, most significant first. */
  function Value(bs: seq<Bit>): nat
    decreases |bs|
  {
    if bs == [] then 0 else 2 * Value(bs[..|bs| - 1]) + bs[|bs| - 1]
  }

  /** The low `n` bits of `v`, most significant first. */
  function BitsOf(v: nat, n: nat): (bs: seq<Bit>)
    ensures |bs| == n
    decreases n
  {
    if n == 0 then [] else BitsOf(v / 2, n - 1) + [v % 2]
  }

  lemma ValueAppends(bs: seq<Bit>, b: Bit)
    ensures Value(bs + [b]) == 2 * Value(bs) + b
  {
    assert (bs + [b])[..|bs|] == bs;
  }

  lemma {:induction false} ValueFits(bs: seq<Bit>)
    ensures Value(bs) < Pow2(|bs|)
    decreases |bs|
  {
    if bs != [] { ValueFits(bs[..|bs| - 1]); }
  }

  lemma {:induction false} ValueSplits(xs: seq<Bit>, ys: seq<Bit>)
    ensures Value(xs + ys) == Value(xs) * Pow2(|ys|) + Value(ys)
    decreases |ys|
  {
    if ys == [] {
      assert xs + ys == xs;
    } else {
      var init, last := ys[..|ys| - 1], ys[|ys| - 1];
      LastApart(xs, ys);
      ValueSplits(xs, init);
      hide *;
      ValueAppends(xs + init, last);
      ValueAppends(init, last);
      ShiftOnce(Value(xs), |init|);
    }
  }

  lemma LastApart(xs: seq<Bit>, ys: seq<Bit>)
    requires ys != []
    ensures var init, last := ys[..|ys| - 1], ys[|ys| - 1];
            xs + ys == (xs + init) + [last] && ys == init + [last] && |init| + 1 == |ys|
  {
  }

  lemma ShiftOnce(v: nat, n: nat)
    ensures v * Pow2(n + 1) == 2 * (v * Pow2(n))
  {
  }

  lemma {:induction false} ValueOfBits(v: nat, n: nat)
    requires v < Pow2(n)
    ensures Value(BitsOf(v, n)) == v
    decreases n
  {
    if n > 0 {
      ValueOfBits(v / 2, n - 1);
      ValueAppends(BitsOf(v / 2, n - 1), v % 2);
    }
  }

  /** Bit `i` from the top is what a right shift by the others leaves lowest. */
  lemma {:induction false} BitAt(v: nat, n: nat, i: nat)
    requires i < n
    ensures BitsOf(v, n)[i] == v / Pow2(n - 1 - i) % 2
    decreases n
  {
    if i == n - 1 {
      assert v / Pow2(0) == v;
    } else {
      BitAt(v / 2, n - 1, i);
      DivTwice(v, 2, Pow2(n - 2 - i));
    }
  }

  // ------------------------------------------------------------------ blocks of eight bytes

  function ByteAt(data: seq<Byte>, i: nat): Byte { if i < |data| then data[i] else 0 }

  /** `k` bytes from `at` as one number, the first most significant. */
  function Gather(data: seq<Byte>, at: nat, k: nat): (v: nat) {
    if k == 0 then 0 else 256 * Gather(data, at, k - 1) + ByteAt(data, at + k - 1)
  }

  function Block(data: seq<Byte>, a: nat): nat { Gather(data, 8 * a, 8) }

  function StoredByte(v: nat, i: nat): Byte
    requires i < 8
  {
    v / Pow2(56 - i * 8) % 256
  }

  /** The first `k` bytes of `v`, stored from `at` where there is room. */
  function Scatter(data: seq<Byte>, at: nat, v: nat, k: nat): (d: seq<Byte>)
    requires k <= 8
    ensures |d| == |data|
    decreases k
  {
    if k == 0 then data
    else
      var d := Scatter(data, at, v, k - 1);
      if at + k - 1 < |d| then d[at + k - 1 := StoredByte(v, k - 1)] else d
  }

  // ------------------------------------------------------------------ the chip, bit by bit

  function Cleared(c: Chip, phase: Phase): Chip { c.(phase := phase, bits := 0, command := 0) }

  /** A complete command: two bits of operation over `n` of address. */
  function Decoded(c: Chip, n: nat): Chip {
    var op := c.command / Pow2(n) % 4;
    var c' := c.(address := c.command % Pow2(n));
    if op == 3 then Cleared(c'.(buffer := Block(c.data, c'.address), pos := 0), ReadingData)
    else if op == 2 then Cleared(c', WritingData)
    else Cleared(c', Idle)
  }

  /** `n` is the number of address bits: 6 or 14. */
  function WriteBit(c: Chip, n: nat, b: Bit): Chip {
    var c' := c.(command := (2 * c.command + b) % WIDTH, bits := c.bits + 1);
    match c.phase
    case Idle | ReadingCommand =>
      var c'' := c'.(phase := ReadingCommand);
      if c''.bits == 2 + n then Decoded(c'', n) else c''
    case WritingData =>
      if c'.bits == 64 then Cleared(c'.(data := Scatter(c.data, 8 * c.address, c'.command, 8)), Idle) else c'
    case ReadingData => c
  }

  function OutputBit(c: Chip): Bit {
    if c.phase != ReadingData then 1
    else if c.pos < 4 || c.pos >= 68 then 0
    else c.buffer / Pow2(63 - (c.pos - 4)) % 2
  }

  function ReadBit(c: Chip): Chip {
    if c.phase != ReadingData then c
    else c.(pos := c.pos + 1, phase := if c.pos + 1 >= 68 then Idle else ReadingData)
  }

  function WriteBits(c: Chip, n: nat, bs: seq<Bit>): Chip
    decreases |bs|
  {
    if bs == [] then c else WriteBit(WriteBits(c, n, bs[..|bs| - 1]), n, bs[|bs| - 1])
  }

  /** The chip after `k` reads, and what they returned. */
  function ReadBits(c: Chip, k: nat): (seq<Bit>, Chip) {
    if k == 0 then ([], c)
    else
      var (out, c') := ReadBits(c, k - 1);
      (out + [OutputBit(c')], ReadBit(c'))
  }

  // ------------------------------------------------------------------ the chip as an object

  class Save {
    const data: array<Byte>
    const addressBits: nat
    var phase: Phase
    var bits: nat
    var command: nat
    var address: nat
    var buffer: nat
    var pos: nat

    constructor (data: array<Byte>, addressBits: nat)
      ensures this.data == data && this.addressBits == addressBits
      ensures State() == Chip(data[..], Idle, 0, 0, 0, 0, 0)
    {
      this.data := data;
      this.addressBits := addressBits;
      phase := Idle;
      bits, command, address, buffer, pos := 0, 0, 0, 0, 0;
    }

    ghost function State(): Chip
      reads this, data
    {
      Chip(data[..], phase, bits, command, address, buffer, pos)
    }

    method EepromWriteBit(b: Bit)
      modifies this, data
      ensures State() == WriteBit(old(State()), addressBits, b)
    {
      match phase {
        case Idle | ReadingCommand =>
          command := (2 * command + b) % WIDTH;
          bits := bits + 1;
          phase := ReadingCommand;
          if bits == 2 + addressBits {
            Decode();
          }
        case WritingData =>
          command := (2 * command + b) % WIDTH;
          bits := bits + 1;
          if bits == 64 {
            StoreBlock();
            Clear(Idle);
          }
        case ReadingData =>
      }
    }

    method Clear(next: Phase)
      modifies this`phase, this`bits, this`command
      ensures State() == Cleared(old(State()), next)
    {
      phase, bits, command := next, 0, 0;
    }

    method Decode()
      modifies this
      ensures State() == Decoded(old(State()), addressBits)
    {
      var op := command / Pow2(addressBits) % 4;
      address := command % Pow2(addressBits);
      if op == 3 {
        buffer := LoadBlock();
        pos := 0;
        Clear(ReadingData);
      } else if op == 2 {
        Clear(WritingData);
      } else {
        Clear(Idle);
      }
    }

    method LoadBlock() returns (val: nat)
      ensures val == Block(data[..], address)
    {
      val := 0;
      for i := 0 to 8
        invariant val == Gather(data[..], 8 * address, i)
      {
        var idx := address * 8 + i;
        if idx < data.Length {
          val := 256 * val + data[idx];
        } else {
          val := 256 * val;
        }
      }
    }

    method StoreBlock()
      modifies data
      ensures data[..] == Scatter(old(data[..]), 8 * address, command, 8)
    {
      for i := 0 to 8
        invariant data[..] == Scatter(old(data[..]), 8 * address, command, i)
      {
        var idx := address * 8 + i;
        if idx < data.Length {
          data[idx] := StoredByte(command, i);
        }
      }
    }

    method Read8() returns (bit: Bit)
      modifies this`pos, this`phase
      ensures bit == OutputBit(old(State())) && State() == ReadBit(old(State()))
    {
      if phase == ReadingData {
        if pos < 4 {
          bit := 0;
        } else {
          var idx := pos - 4;
          bit := if idx < 64 then buffer / Pow2(63 - idx) % 2 else 0;
        }
        pos := pos + 1;
        if pos >= 68 {
          phase := Idle;
        }
      } else {
        bit := 1;
      }
    }
  }

  // ------------------------------------------------------------------ storing and loading a block

  lemma {:induction false} GatherFits(data: seq<Byte>, at: nat, k: nat)
    ensures Gather(data, at, k) < Pow2(8 * k)
    decreases k
  {
    if k > 0 {
      GatherFits(data, at, k - 1);
      Pow2Byte(8 * k - 8);
    }
  }

  lemma Pow2Byte(n: nat)
    ensures Pow2(n + 8) == 256 * Pow2(n)
  {
    Pow2Add(8, n);
    assert Pow2(8) == 256;
  }

  lemma {:induction false} ScatterElsewhere(data: seq<Byte>, at: nat, v: nat, k: nat, i: nat)
    requires k <= 8 && (i < at || at + k <= i)
    ensures ByteAt(Scatter(data, at, v, k), i) == ByteAt(data, i)
    decreases k
  {
    if k > 0 { ScatterElsewhere(data, at, v, k - 1, i); }
  }

  lemma {:induction false} ScatterPlaces(data: seq<Byte>, at: nat, v: nat, k: nat, i: nat)
    requires i < k <= 8 && at + 8 <= |data|
    ensures ByteAt(Scatter(data, at, v, k), at + i) == StoredByte(v, i)
    decreases k
  {
    if i < k - 1 { ScatterPlaces(data, at, v, k - 1, i); }
  }

  /** Loading gives back what was stored. */
  lemma {:induction false} GatherScattered(data: seq<Byte>, at: nat, v: nat, k: nat)
    requires k <= 8 && at + 8 <= |data| && v < WIDTH
    ensures Gather(Scatter(data, at, v, 8), at, k) == v / Pow2(64 - k * 8)
    decreases k
  {
    hide Scatter, Pow2;
    WidthIs();
    if k == 0 {
      QuotientIs(v, WIDTH, 0, v);
    } else {
      GatherScattered(data, at, v, k - 1);
      ScatterPlaces(data, at, v, 8, k - 1);
      Pow2Byte(64 - k * 8);
      ByteBelow(v, Pow2(64 - k * 8));
    }
  }

  /** A quotient is the next shorter one with a byte appended. */
  lemma ByteBelow(v: nat, p: nat)
    requires p > 0
    ensures 256 * (v / (256 * p)) + v / p % 256 == v / p
  {
    DivTwice(v, p, 256);
    Quotient(v / p, 256);
  }

  lemma WidthIs()
    ensures Pow2(64) == WIDTH
  {
    Pow2Known();
    Pow2Add(32, 32);
  }

  lemma {:induction false} GatherUntouched(data: seq<Byte>, at: nat, v: nat, from: nat, k: nat)
    requires from + k <= at || at + 8 <= from
    ensures Gather(Scatter(data, at, v, 8), from, k) == Gather(data, from, k)
    decreases k
  {
    if k > 0 {
      GatherUntouched(data, at, v, from, k - 1);
      ScatterElsewhere(data, at, v, 8, from + k - 1);
    }
  }

  // ------------------------------------------------------------------ runs of bits

  lemma {:induction false} WriteBitsSplit(c: Chip, n: nat, xs: seq<Bit>, ys: seq<Bit>)
    ensures WriteBits(c, n, xs + ys) == WriteBits(WriteBits(c, n, xs), n, ys)
    decreases |ys|
  {
    if ys == [] {
      assert xs + ys == xs;
    } else {
      var init, last := ys[..|ys| - 1], ys[|ys| - 1];
      assert (xs + ys)[..|xs + ys| - 1] == xs + init && (xs + ys)[|xs + ys| - 1] == last;
      WriteBitsSplit(c, n, xs, init);
    }
  }

  predicate AtRest(c: Chip) { c.phase == Idle && c.bits == 0 && c.command == 0 }

  /** While a command is incomplete its bits just accumulate. */
  lemma {:induction false} CommandAccumulates(c: Chip, n: nat, bs: seq<Bit>)
    requires AtRest(c) && 0 < |bs| < 2 + n <= 64
    ensures WriteBits(c, n, bs) == c.(phase := ReadingCommand, bits := |bs|, command := Value(bs))
    decreases |bs|
  {
    var init := bs[..|bs| - 1];
    ValueBelowWidth(bs);
    if |bs| > 1 {
      CommandAccumulates(c, n, init);
    } else {
      assert WriteBits(c, n, init) == c && Value(init) == 0;
    }
  }

  lemma ValueBelowWidth(bs: seq<Bit>)
    requires |bs| <= 64
    ensures Value(bs) < WIDTH
  {
    ValueFits(bs);
    WidthIs();
    Pow2Add(|bs|, 64 - |bs|);
    MulAtLeast(Pow2(|bs|), Pow2(64 - |bs|));
  }

  /** A complete command is decoded from the number its bits spell. */
  lemma CommandCompletes(c: Chip, n: nat, bs: seq<Bit>)
    requires AtRest(c) && |bs| == 2 + n <= 64 && n > 0
    ensures WriteBits(c, n, bs)
         == Decoded(c.(phase := ReadingCommand, bits := 2 + n, command := Value(bs)), n)
  {
    hide *;
    var init, last := bs[..|bs| - 1], bs[|bs| - 1];
    LastWritten(c, n, bs);
    CommandAccumulates(c, n, init);
    ValueBelowWidth(bs);
    LastCommandBit(c, n, init, last);
  }

  lemma LastWritten(c: Chip, n: nat, bs: seq<Bit>)
    requires bs != []
    ensures WriteBits(c, n, bs) == WriteBit(WriteBits(c, n, bs[..|bs| - 1]), n, bs[|bs| - 1])
    ensures Value(bs) == 2 * Value(bs[..|bs| - 1]) + bs[|bs| - 1]
  {
  }

  lemma LastCommandBit(c: Chip, n: nat, init: seq<Bit>, last: Bit)
    requires |init| == 1 + n && 2 * Value(init) + last < WIDTH
    ensures WriteBit(c.(phase := ReadingCommand, bits := |init|, command := Value(init)), n, last)
         == Decoded(c.(phase := ReadingCommand, bits := 2 + n, command := 2 * Value(init) + last), n)
  {
    hide Decoded, Value;
  }

  lemma LastDataBit(c: Chip, n: nat, init: seq<Bit>, last: Bit)
    requires c.phase == WritingData && |init| == 63 && 2 * Value(init) + last < WIDTH
    ensures WriteBit(c.(bits := 63, command := Value(init)), n, last)
         == Cleared(c, Idle).(data := Scatter(c.data, 8 * c.address, 2 * Value(init) + last, 8))
  {
    hide Scatter, Value, Decoded;
  }

  lemma {:induction false} DataAccumulates(c: Chip, n: nat, bs: seq<Bit>)
    requires c.phase == WritingData && c.bits == 0 && c.command == 0 && |bs| < 64
    ensures WriteBits(c, n, bs) == c.(bits := |bs|, command := Value(bs))
    decreases |bs|
  {
    if bs != [] {
      DataAccumulates(c, n, bs[..|bs| - 1]);
      ValueBelowWidth(bs);
    }
  }

  lemma DataCompletes(c: Chip, n: nat, bs: seq<Bit>)
    requires c.phase == WritingData && c.bits == 0 && c.command == 0 && |bs| == 64
    ensures WriteBits(c, n, bs)
         == Cleared(c, Idle).(data := Scatter(c.data, 8 * c.address, Value(bs), 8))
  {
    hide *;
    LastWritten(c, n, bs);
    DataAccumulates(c, n, bs[..|bs| - 1]);
    ValueBelowWidth(bs);
    LastDataBit(c, n, bs[..|bs| - 1], bs[|bs| - 1]);
  }

  /** Bits written while a block is being read out are ignored. */
  lemma {:induction false} IgnoredWhileReading(c: Chip, n: nat, bs: seq<Bit>)
    requires c.phase == ReadingData
    ensures WriteBits(c, n, bs) == c
    decreases |bs|
  {
    if bs != [] { IgnoredWhileReading(c, n, bs[..|bs| - 1]); }
  }

  /** What the first `k` reads of a block return. */
  function Answer(v: nat, k: nat): seq<Bit>
    requires k <= 68
  {
    ([0, 0, 0, 0] + BitsOf(v, 64))[..k]
  }

  lemma {:induction false} ReadsAnswer(c: Chip, k: nat)
    requires c.phase == ReadingData && c.pos == 0 && k <= 68
    ensures ReadBits(c, k) == (Answer(c.buffer, k), c.(pos := k, phase := if k >= 68 then Idle else ReadingData))
    decreases k
  {
    if k > 0 {
      ReadsAnswer(c, k - 1);
      if k - 1 >= 4 { BitAt(c.buffer, 64, k - 5); }
      hide BitsOf;
      assert Answer(c.buffer, k) == Answer(c.buffer, k - 1) + [([0, 0, 0, 0] + BitsOf(c.buffer, 64))[k - 1]];
    }
  }

  // ------------------------------------------------------------------ the block store

  /** A driver's transaction: read a block, write one, or poll for the ready bit.
      The bits a driver clocks in behind a read command have no effect. */
  datatype Transaction = Read(a: nat, trailing: seq<Bit>) | Write(a: nat, value: nat) | Poll {
    predicate Valid(n: nat) { Poll? || (a < Pow2(n) && (Write? ==> value < WIDTH)) }
  }

  /** Bits clocked in, then the number of bits clocked out. */
  function Frame(t: Transaction, n: nat): seq<Bit> {
    match t
    case Read(a, trailing) => ([1, 1] + BitsOf(a, n)) + trailing
    case Write(a, value) => ([1, 0] + BitsOf(a, n)) + BitsOf(value, 64)
    case Poll => []
  }

  function Reads(t: Transaction): nat { match t case Read(_, _) => 68 case Write(_, _) => 0 case Poll => 1 }

  function Step(c: Chip, n: nat, t: Transaction): (seq<Bit>, Chip) { ReadBits(WriteBits(c, n, Frame(t, n)), Reads(t)) }

  function Run(c: Chip, n: nat, ts: seq<Transaction>): (seq<seq<Bit>>, Chip)
    decreases |ts|
  {
    if ts == [] then ([], c)
    else
      var (outs, c') := Run(c, n, ts[..|ts| - 1]);
      var (out, c'') := Step(c', n, ts[|ts| - 1]);
      (outs + [out], c'')
  }

  type Store = nat -> nat

  function Updated(m: Store, a: nat, v: nat): Store { x => if x == a then v else m(x) }

  function StoreStep(m: Store, t: Transaction): (seq<Bit>, Store) {
    match t
    case Read(a, _) => ([0, 0, 0, 0] + BitsOf(m(a), 64), m)
    case Write(a, value) => ([], Updated(m, a, value))
    case Poll => ([1], m)
  }

  function StoreRun(m: Store, ts: seq<Transaction>): (seq<seq<Bit>>, Store)
    decreases |ts|
  {
    if ts == [] then ([], m)
    else
      var (outs, m') := StoreRun(m, ts[..|ts| - 1]);
      var (out, m'') := StoreStep(m', ts[|ts| - 1]);
      (outs + [out], m'')
  }

  /** The chip is at rest and its `2^n` blocks are what the store holds. */
  ghost predicate Represents(c: Chip, n: nat, m: Store) {
    AtRest(c) && 8 * Pow2(n) <= |c.data| && forall a: nat :: a < Pow2(n) ==> m(a) == Block(c.data, a)
  }

  lemma CommandFields(op: nat, a: nat, n: nat, hi: Bit, lo: Bit)
    requires a < Pow2(n) && op == 2 * hi + lo
    ensures var v := Value([hi, lo] + BitsOf(a, n)); v / Pow2(n) == op && v % Pow2(n) == a
  {
    ValueSplits([hi, lo], BitsOf(a, n));
    ValueOfBits(a, n);
    assert [hi, lo][..1] == [hi] && Value([hi]) == hi && Value([hi, lo]) == op;
    QuotientIs(op * Pow2(n) + a, Pow2(n), op, a);
  }

  /** The chip once a command for address `a` has come in. */
  lemma CommandSent(c: Chip, n: nat, hi: Bit, lo: Bit, a: nat)
    requires AtRest(c) && 0 < n <= 62 && a < Pow2(n)
    ensures WriteBits(c, n, [hi, lo] + BitsOf(a, n)) ==
            if hi == 1 && lo == 1 then c.(phase := ReadingData, address := a, buffer := Block(c.data, a), pos := 0)
            else c.(phase := if hi == 1 then WritingData else Idle, address := a)
  {
    hide Decoded, Value, Block, BitsOf, WriteBits;
    var bs := [hi, lo] + BitsOf(a, n);
    CommandCompletes(c, n, bs);
    CommandFields(2 * hi + lo, a, n, hi, lo);
    DecodedIs(c, n, Value(bs), 2 * hi + lo, a);
  }

  lemma DecodedIs(c: Chip, n: nat, v: nat, op: nat, a: nat)
    requires AtRest(c) && v / Pow2(n) == op < 4 && v % Pow2(n) == a
    ensures Decoded(c.(phase := ReadingCommand, bits := 2 + n, command := v), n) ==
            if op == 3 then c.(phase := ReadingData, address := a, buffer := Block(c.data, a), pos := 0)
            else c.(phase := if op == 2 then WritingData else Idle, address := a)
  {
    hide Block;
  }

  lemma ReadStep(c: Chip, n: nat, a: nat, trailing: seq<Bit>)
    requires AtRest(c) && 0 < n <= 62 && a < Pow2(n)
    ensures Step(c, n, Read(a, trailing))
         == ([0, 0, 0, 0] + BitsOf(Block(c.data, a), 64), c.(address := a, buffer := Block(c.data, a), pos := 68))
  {
    hide WriteBits, ReadBits, BitsOf, Block;
    var ready := c.(phase := ReadingData, address := a, buffer := Block(c.data, a), pos := 0);
    CommandSent(c, n, 1, 1, a);
    WriteBitsSplit(c, n, [1, 1] + BitsOf(a, n), trailing);
    IgnoredWhileReading(ready, n, trailing);
    ReadsAnswer(ready, 68);
    assert Answer(ready.buffer, 68) == [0, 0, 0, 0] + BitsOf(ready.buffer, 64);
  }

  lemma WriteStep(c: Chip, n: nat, a: nat, value: nat)
    requires AtRest(c) && 0 < n <= 62 && a < Pow2(n) && value < WIDTH
    ensures Step(c, n, Write(a, value)) == ([], Written(c, a, value))
    ensures WriteBits(c, n, Frame(Write(a, value), n)) == Written(c, a, value)
  {
    assert forall x :: ReadBits(x, 0) == ([], x);
    hide WriteBits, ReadBits, BitsOf, Block, Scatter, Value;
    CommandSent(c, n, 1, 0, a);
    WriteBitsSplit(c, n, [1, 0] + BitsOf(a, n), BitsOf(value, 64));
    DataCompletes(c.(phase := WritingData, address := a), n, BitsOf(value, 64));
    WidthIs();
    ValueOfBits(value, 64);
  }

  function Written(c: Chip, a: nat, value: nat): Chip {
    c.(address := a, data := Scatter(c.data, 8 * a, value, 8))
  }

  /** One transaction on the chip is one on the store. */
  lemma StepRefines(c: Chip, n: nat, m: Store, t: Transaction)
    requires 0 < n <= 62 && t.Valid(n) && Represents(c, n, m)
    ensures Step(c, n, t).0 == StoreStep(m, t).0 && Represents(Step(c, n, t).1, n, StoreStep(m, t).1)
    ensures |Step(c, n, t).1.data| == |c.data|
  {
    match t
    case Read(a, trailing) =>
      ReadStep(c, n, a, trailing);
    case Write(a, value) =>
      WriteStep(c, n, a, value);
      var d := Scatter(c.data, 8 * a, value, 8);
      GatherScattered(c.data, 8 * a, value, 8);
      forall b: nat | b < Pow2(n)
        ensures Block(d, b) == Updated(m, a, value)(b)
      {
        if b != a { GatherUntouched(c.data, 8 * a, value, 8 * b, 8); }
      }
    case Poll =>
      ReadyBits(c, 1);
      assert Ones(1) == Ones(0) + [1] == [1];
  }

  /** Any sequence of framed transactions: the chip answers as the block store does, and
      ends at rest holding the same blocks. */
  lemma {:induction false} RunRefines(c: Chip, n: nat, m: Store, ts: seq<Transaction>)
    requires n == 6 || n == 14
    requires (forall i :: 0 <= i < |ts| ==> ts[i].Valid(n)) && Represents(c, n, m)
    ensures Run(c, n, ts).0 == StoreRun(m, ts).0 && Represents(Run(c, n, ts).1, n, StoreRun(m, ts).1)
    decreases |ts|
  {
    if ts != [] {
      var init := ts[..|ts| - 1];
      RunRefines(c, n, m, init);
      StepRefines(Run(c, n, init).1, n, StoreRun(m, init).1, ts[|ts| - 1]);
    }
  }

  /** A driver that closes a write with a stop bit leaves the chip one bit into a command. */
  lemma StopBitDesynchronises(c: Chip, n: nat, a: nat, value: nat, stop: Bit)
    requires (n == 6 || n == 14) && AtRest(c) && a < Pow2(n) && value < WIDTH
    ensures WriteBits(c, n, Frame(Write(a, value), n) + [stop])
         == Written(c, a, value).(phase := ReadingCommand, bits := 1, command := stop)
  {
    WriteStep(c, n, a, value);
    WriteBitsSplit(c, n, Frame(Write(a, value), n), [stop]);
    CommandAccumulates(Written(c, a, value), n, [stop]);
    assert Value([stop]) == stop by { assert [stop][..0] == []; }
  }

  /** The next read, though framed as it should be, is then taken for an unknown command
      and answered with ready bits. */
  lemma StopBitLosesRead(c: Chip, n: nat, a: nat, value: nat, b: nat)
    requires (n == 6 || n == 14) && AtRest(c) && a < Pow2(n) && b < Pow2(n) && value < WIDTH
    ensures Step(WriteBits(c, n, Frame(Write(a, value), n) + [0]), n, Read(b, [])).0 == Ones(68)
  {
    var d := Written(c, a, value);
    var all := Frame(Read(b, []), n);
    WriteStep(c, n, a, value);
    hide WriteBits, ReadBits, Scatter, Value;
    WriteBitsSplit(c, n, Frame(Write(a, value), n), [0]);
    WriteBitsSplit(d, n, [0], all);
    LateByOne(d, n, b);
    ReadyBits(WriteBits(d, n, [0] + all), 68);
  }

  lemma LateByOne(d: Chip, n: nat, b: nat)
    requires (n == 6 || n == 14) && AtRest(d) && b < Pow2(n)
    ensures WriteBits(d, n, [0] + Frame(Read(b, []), n)).phase == ReadingCommand
  {
    hide Value, WriteBits, Decoded, BitsOf, Frame;
    var low, last := FirstPart(b, n);
    var v := Value([0, 1] + low);
    UnknownCommand(low);
    CommandCompletes(d, n, [0, 1] + low);
    WriteBitsSplit(d, n, [0, 1] + low, last);
    DecodedIs(d, n, v, 1, v % Pow2(n));
    CommandStarts(d.(address := v % Pow2(n)), n, last);
  }

  /** A late read command without its last bit. */
  lemma FirstPart(b: nat, n: nat) returns (low: seq<Bit>, last: seq<Bit>)
    requires n > 0
    ensures |low| == n && |last| == 1 && [0] + Frame(Read(b, []), n) == ([0, 1] + low) + last
  {
    var address := BitsOf(b, n);
    low, last := [1] + address[..n - 1], [address[n - 1]];
    assert Frame(Read(b, []), n) == [1, 1] + address;
    assert address == address[..n - 1] + last;
  }

  lemma CommandStarts(c: Chip, n: nat, last: seq<Bit>)
    requires AtRest(c) && |last| == 1 && (n == 6 || n == 14)
    ensures WriteBits(c, n, last).phase == ReadingCommand
  {
    CommandAccumulates(c, n, last);
  }

  lemma UnknownCommand(low: seq<Bit>)
    ensures Value([0, 1] + low) / Pow2(|low|) == 1
  {
    ValueSplits([0, 1], low);
    assert [0, 1][..1] == [0] && [0][..0] == [] && Value([0]) == 0 && Value([0, 1]) == 1;
    ValueFits(low);
    QuotientIs(Value([0, 1] + low), Pow2(|low|), 1, Value(low));
  }

  function Ones(k: nat): seq<Bit> { if k == 0 then [] else Ones(k - 1) + [1] }

  lemma {:induction false} ReadyBits(c: Chip, k: nat)
    requires c.phase != ReadingData
    ensures ReadBits(c, k) == (Ones(k), c)
    decreases k
  {
    if k > 0 { ReadyBits(c, k - 1); }
  }

  // ------------------------------------------------------------------ bits in bytes

  /** Bit `k` of a byte from the top. */
  function TopBit(b: Byte, k: nat): int
    requires k < 8
  {
    b / [0x80, 0x40, 0x20, 0x10, 8, 4, 2, 1][k] % 2
  }

  lemma {:induction false} GatherPrefix(data: seq<Byte>, at: nat, k: nat, more: nat)
    ensures Gather(data, at, k + more) / Pow2(8 * more) == Gather(data, at, k)
    decreases more
  {
    if more > 0 {
      GatherPrefix(data, at, k, more - 1);
      Pow2Byte(8 * more - 8);
      var v := Gather(data, at, k + more);
      QuotientIs(v, 256, Gather(data, at, k + more - 1), ByteAt(data, at + k + more - 1));
      DivTwice(v, 256, Pow2(8 * more - 8));
    } else {
      assert Pow2(0) == 1;
    }
  }

  lemma LowByteBit(g: nat, b: Byte, k: nat)
    requires k < 8
    ensures (256 * g + b) / Pow2(7 - k) % 2 == TopBit(b, k)
  {
    SmallPowers();
    var p, q := [0x80, 0x40, 0x20, 0x10, 8, 4, 2, 1][k], [1, 2, 4, 8, 0x10, 0x20, 0x40, 0x80][k];
    assert p * q == 0x80 && Pow2(7 - k) == p;
    EvenPart(g, b, p, q);
  }

  lemma SmallPowers()
    ensures Pow2(0) == 1 && Pow2(1) == 2 && Pow2(2) == 4 && Pow2(3) == 8 && Pow2(4) == 0x10 && Pow2(5) == 0x20
            && Pow2(6) == 0x40 && Pow2(7) == 0x80
  {
  }

  lemma EvenPart(g: nat, b: nat, p: nat, q: nat)
    requires p > 0 && p * q == 0x80
    ensures (256 * g + b) / p % 2 == b / p % 2
  {
    Quotient(b, p);
    MulAssoc(2 * g, q, p);
    Distribute(2 * g * q, b / p, p);
    assert 256 * g == 2 * g * q * p;
    QuotientIs(256 * g + b, p, 2 * g * q + b / p, b % p);
    TwiceMore(g, q, b / p);
  }

  lemma TwiceMore(g: nat, q: nat, r: nat)
    ensures (2 * g * q + r) % 2 == r % 2
  {
    assert 2 * g * q == 2 * (g * q);
  }

  /** Bit `8 i + k` of a block, from the top, is bit `k` of its byte `i`. */
  lemma BlockBit(data: seq<Byte>, at: nat, i: nat, k: nat)
    requires i < 8 && k < 8
    ensures BitsOf(Gather(data, at, 8), 64)[8 * i + k] == TopBit(ByteAt(data, at + i), k)
  {
    hide *;
    var v := Gather(data, at, 8);
    BitAt(v, 64, 8 * i + k);
    GatherPrefix(data, at, i + 1, 7 - i);
    ShiftInTwo(v, 7 - i, 7 - k);
    GatherLast(data, at, i);
    LowByteBit(Gather(data, at, i), ByteAt(data, at + i), k);
    assert 64 - 1 - (8 * i + k) == 8 * (7 - i) + (7 - k);
  }

  lemma ShiftInTwo(v: nat, whole: nat, rest: nat)
    ensures v / Pow2(8 * whole + rest) == v / Pow2(8 * whole) / Pow2(rest)
  {
    Pow2Add(8 * whole, rest);
    DivTwice(v, Pow2(8 * whole), Pow2(rest));
  }

  lemma GatherLast(data: seq<Byte>, at: nat, i: nat)
    ensures Gather(data, at, i + 1) == 256 * Gather(data, at, i) + ByteAt(data, at + i)
  {
  }

  /** A read clocks out four zeros and then the block's bytes in order, each from its highest
      bit; bytes the chip does not have read as zero. */
  lemma ReadsBytes(c: Chip, n: nat, a: nat, trailing: seq<Bit>, i: nat, k: nat)
    requires AtRest(c) && 0 < n <= 62 && a < Pow2(n) && i < 8 && k < 8
    ensures var out := Step(c, n, Read(a, trailing)).0;
            && |out| == 68 && out[..4] == [0, 0, 0, 0]
            && out[4 + 8 * i + k] == if 8 * a + i < |c.data| then TopBit(c.data[8 * a + i], k) else 0
  {
    hide *;
    ReadStep(c, n, a, trailing);
    BlockBit(c.data, 8 * a, i, k);
    BlockIs(c.data, a);
    BehindFour(BitsOf(Block(c.data, a), 64), 8 * i + k);
    ByteIs(c.data, 8 * a + i);
    TopBitOfZero(k);
  }

  lemma BlockIs(data: seq<Byte>, a: nat)
    ensures Block(data, a) == Gather(data, 8 * a, 8)
  {
    hide Gather;
  }

  lemma ByteIs(data: seq<Byte>, i: nat)
    ensures ByteAt(data, i) == if i < |data| then data[i] else 0
  {
  }

  lemma TopBitOfZero(k: nat)
    requires k < 8
    ensures TopBit(0, k) == 0
  {
  }

  lemma BehindFour(bits: seq<Bit>, j: nat)
    requires j < |bits|
    ensures ([0, 0, 0, 0] + bits)[4 + j] == bits[j] && ([0, 0, 0, 0] + bits)[..4] == [0, 0, 0, 0]
    ensures |[0, 0, 0, 0] + bits| == 4 + |bits|
  {
  }

  /** A write stores the data bits as they come in, eight to a byte from its highest bit, in
      the block's bytes in order, and no other byte changes. */
  lemma WritesBytes(c: Chip, n: nat, a: nat, value: nat, i: nat, k: nat, other: nat)
    requires AtRest(c) && 0 < n <= 62 && a < Pow2(n) && value < WIDTH && i < 8 && k < 8
    requires 8 * a + 8 <= |c.data| && other < |c.data| && (other < 8 * a || 8 * a + 8 <= other)
    ensures var d := Step(c, n, Write(a, value)).1.data;
            && |d| == |c.data| && d[other] == c.data[other]
            && TopBit(d[8 * a + i], k) == Frame(Write(a, value), n)[2 + n + 8 * i + k]
  {
    hide *;
    var d := Scatter(c.data, 8 * a, value, 8);
    WriteStep(c, n, a, value);
    WrittenIs(c, a, value);
    WholeValue(c.data, 8 * a, value);
    ScatterElsewhere(c.data, 8 * a, value, 8, other);
    BlockBit(d, 8 * a, i, k);
    ByteIs(d, other);
    ByteIs(c.data, other);
    ByteIs(d, 8 * a + i);
    DataBitAt(a, value, n, 8 * i + k);
  }

  lemma WrittenIs(c: Chip, a: nat, value: nat)
    ensures Written(c, a, value).data == Scatter(c.data, 8 * a, value, 8)
  {
    hide Scatter;
  }

  lemma WholeValue(data: seq<Byte>, at: nat, value: nat)
    requires at + 8 <= |data| && value < WIDTH
    ensures Gather(Scatter(data, at, value, 8), at, 8) == value
  {
    GatherScattered(data, at, value, 8);
    assert Pow2(0) == 1;
  }

  lemma DataBitAt(a: nat, value: nat, n: nat, j: nat)
    requires j < 64
    ensures |Frame(Write(a, value), n)| == 66 + n && Frame(Write(a, value), n)[2 + n + j] == BitsOf(value, 64)[j]
  {
    hide BitsOf;
  }
}
