/// The LZ77 and run-length routines of the BIOS: loops over registers that read
/// and write one memory, bytewise for RAM and in halfwords for video memory.
module Decompress {
  import opened Arithmetic
  import opened Unpack

  /** The header is read as an aligned word, video memory written in aligned halfwords. */
  predicate Placed(size: nat, src: nat, dst: nat, vram: bool) {
    src % 4 == 0 && src + 4 <= size && dst <= size && (vram ==> dst % 2 == 0)
  }

  /** Bytes a routine writes: video memory is filled up to a whole halfword. */
  function Footprint(n: nat, vram: bool): nat { if vram then n + n % 2 else n }

  /** What is read from `src` and what is written to `dst` fit and do not overlap. */
  predicate Apart(size: nat, src: nat, end: nat, dst: nat, len: nat) {
    end <= size && dst + len <= size && (end <= dst || dst + len <= src)
  }

  /** What is read just below the memory, as far as the longest reference reaches. */
  type Below = b: seq<Byte> | |b| == WINDOW witness seq(WINDOW, _ => 0)

  function Lz77(below: Below, m: seq<Byte>, src: nat, dst: nat): Unpacked
    requires dst <= |m|
  {
    Lz(m, src + 4, 0, 0, below + m[..dst], Declared(m, src))
  }

  function RunLength(below: Below, m: seq<Byte>, src: nat, dst: nat): Unpacked
    requires dst <= |m|
  {
    Rl(m, src + 4, below + m[..dst], Declared(m, src))
  }

  /** Memory after unpacking: the output, a zero when a halfword has to be filled up,
      and everything behind it as it was. */
  predicate Unpacks(before: seq<Byte>, after: seq<Byte>, result: seq<Byte>, n: nat, vram: bool)
    requires |result| + Footprint(n, vram) - n <= |before|
  {
    var end := |result| + Footprint(n, vram) - n;
    after == result + Repeat(0, Footprint(n, vram) - n) + before[end..]
  }

  /** How `Lz77UnComp` leaves memory `m`. */
  predicate Lz77Leaves(below: Below, m: seq<Byte>, after: seq<Byte>, src: nat, dst: nat, vram: bool) {
    && dst + Footprint(Declared(m, src), vram) <= |m|
    && Unpacks(below + m, below + after, Lz77(below, m, src, dst).out, Declared(m, src), vram)
  }

  /** How `RlUnComp` leaves memory `m`. */
  predicate RlLeaves(below: Below, m: seq<Byte>, after: seq<Byte>, src: nat, dst: nat, vram: bool) {
    && dst + Footprint(Declared(m, src), vram) <= |m|
    && Unpacks(below + m, below + after, RunLength(below, m, src, dst).out, Declared(m, src), vram)
  }

  class Unpacker {
    const mem: array<Byte>
    const below: Below
    var dst: nat
    var vram: bool
    var pending: Byte
    var hasPending: bool

    constructor (mem: array<Byte>, below: Below, dst: nat, vram: bool, ghost n: nat)
      requires dst + n <= mem.Length && (vram ==> dst % 2 == 0)
      ensures this.mem == mem && this.below == below && this.vram == vram
      ensures Between(mem[..], dst, n, n) && Out() == below + mem[..dst]
    {
      this.mem := mem;
      this.below := below;
      this.dst := dst;
      this.vram := vram;
      pending := 0;
      hasPending := false;
    }

    /** Memory up to the output cursor, the byte not yet stored included. */
    ghost function Out(): (o: seq<Byte>)
      requires dst <= mem.Length
      reads this, mem
      ensures |o| == WINDOW + dst + if hasPending then 1 else 0
    {
      below + mem[..dst] + if hasPending then [pending] else []
    }

    ghost predicate Valid()
      reads this
    {
      dst <= mem.Length && (hasPending ==> vram) && (vram ==> dst % 2 == 0)
    }

    /** Memory behind what is stored is as it was. */
    ghost predicate Behind(m: seq<Byte>)
      reads this, mem
    {
      dst <= mem.Length == |m| && mem[dst..] == m[dst..]
    }

    /** One output byte: stored at once, or held until its halfword is complete. */
    method Emit(b: Byte, ghost m: seq<Byte>)
      requires Valid() && Behind(m) && |Out()| < WINDOW + mem.Length
      modifies this`dst, this`pending, this`hasPending, mem
      ensures Valid() && Behind(m) && Out() == old(Out()) + [b]
    {
      if !vram {
        mem[dst] := b;
        dst := dst + 1;
      } else if !hasPending {
        pending := b;
        hasPending := true;
      } else {
        StoreHalf(pending + 256 * b);
        dst := dst + 2;
        hasPending := false;
      }
    }

    /** STRH at the output pointer: low byte first. */
    method StoreHalf(h: nat)
      requires dst + 1 < mem.Length && h < 0x1_0000
      modifies mem
      ensures mem[..] == old(mem[..])[dst := h % 256][dst + 1 := h / 256]
    {
      mem[dst] := h % 256;
      mem[dst + 1] := h / 256;
    }

    /** The byte `off` back from the output cursor, which may still be held. */
    method Fetch(off: nat) returns (b: Byte)
      requires Valid() && 1 <= off <= |Out()|
      ensures b == Out()[|Out()| - off]
    {
      var a := dst + (if hasPending then 1 else 0) - off;
      if a == dst && hasPending {
        b := pending;
      } else if a < 0 {
        b := below[WINDOW + a];
      } else {
        b := mem[a];
      }
    }

    /** Store a byte still held, with zero above it. */
    method Finish(ghost m: seq<Byte>)
      requires Valid() && Behind(m) && (hasPending ==> |Out()| < WINDOW + mem.Length)
      modifies mem
      ensures below + mem[..]
           == old(Out()) + (if hasPending then [0] else []) + m[dst + (if hasPending then 2 else 0)..]
    {
      if hasPending {
        StoreHalf(pending);
      }
    }

    /** A source byte, which the output has not reached: it lies before `start` or behind the output. */
    method ReadSource(p: nat, ghost m: seq<Byte>, ghost start: nat) returns (b: Byte)
      requires Valid() && Behind(m) && start <= dst && below + m[..start] <= Out()
      requires p < mem.Length && (p < start || dst <= p)
      ensures b == At(m, p)
    {
      b := mem[p];
      if p < start {
        assert Out()[WINDOW + p] == (below + m[..start])[WINDOW + p];
      } else {
        assert mem[dst..][p - dst] == m[dst..][p - dst];
      }
    }

    /** Copy `len` bytes from `off` back, or as many as are still wanted. */
    method CopyBack(off: nat, len: nat, wanted: nat, ghost m: seq<Byte>) returns (left: nat)
      requires Valid() && Behind(m) && 1 <= off <= |Out()| && |Out()| + wanted <= WINDOW + mem.Length
      modifies this`dst, this`pending, this`hasPending, mem
      ensures Valid() && Behind(m) && dst >= old(dst) && left == wanted - Least(len, wanted)
      ensures Out() == CopyRun(old(Out()), off, Least(len, wanted))
    {
      hide CopyRun;
      var r6: nat := len;
      left := wanted;
      while r6 != 0 && left != 0
        invariant Valid() && Behind(m) && dst >= old(dst) && left <= wanted && r6 <= len && off <= |Out()|
        invariant left - Least(r6, left) == wanted - Least(len, wanted) && |Out()| + left <= WINDOW + mem.Length
        invariant CopyRun(Out(), off, Least(r6, left)) == CopyRun(old(Out()), off, Least(len, wanted))
      {
        var b := Fetch(off);
        CopyStep(Out(), off, Least(r6, left));
        Emit(b, m);
        left := left - 1;
        r6 := r6 - 1;
      }
      CopyNone(Out(), off);
    }

    /** Copy `len` source bytes, or as many as are still wanted. */
    method CopyLiterals(from: nat, len: nat, wanted: nat, ghost m: seq<Byte>, ghost start: nat, ghost end: nat)
      returns (r0: nat, left: nat)
      requires Valid() && Behind(m) && start <= dst && below + m[..start] <= Out()
              && |Out()| + wanted <= WINDOW + mem.Length
      requires from + Least(len, wanted) <= end <= mem.Length && (end <= start || |Out()| + wanted <= WINDOW + from)
      modifies this`dst, this`pending, this`hasPending, mem
      ensures Valid() && Behind(m) && dst >= old(dst) && left == wanted - Least(len, wanted)
      ensures r0 == from + Least(len, wanted) && Out() == old(Out()) + Slice(m, from, Least(len, wanted))
    {
      hide At, Slice;
      var r4: nat := len;
      r0 := from;
      left := wanted;
      ghost var all := old(Out()) + Slice(m, from, Least(len, wanted));
      while r4 != 0 && left != 0
        invariant Valid() && Behind(m) && dst >= old(dst) && below + m[..start] <= Out() && left <= wanted && r4 <= len
        invariant left - Least(r4, left) == wanted - Least(len, wanted) && |Out()| + left == |old(Out())| + wanted
        invariant r0 + Least(r4, left) == from + Least(len, wanted) && from <= r0
        invariant Out() + Slice(m, r0, Least(r4, left)) == all
      {
        var b := ReadSource(r0, m, start);
        SliceStep(m, Out(), r0, Least(r4, left));
        Emit(b, m);
        r0 := r0 + 1;
        left := left - 1;
        r4 := r4 - 1;
      }
      SliceNone(m, Out(), r0);
    }

    /** Repeat one byte `len` times, or as often as is still wanted. */
    method Fill(b: Byte, len: nat, wanted: nat, ghost m: seq<Byte>) returns (left: nat)
      requires Valid() && Behind(m) && |Out()| + wanted <= WINDOW + mem.Length
      modifies this`dst, this`pending, this`hasPending, mem
      ensures Valid() && Behind(m) && dst >= old(dst) && left == wanted - Least(len, wanted)
      ensures Out() == old(Out()) + Repeat(b, Least(len, wanted))
    {
      var r4: nat := len;
      left := wanted;
      ghost var all := old(Out()) + Repeat(b, Least(len, wanted));
      while r4 != 0 && left != 0
        invariant Valid() && Behind(m) && dst >= old(dst) && left <= wanted && r4 <= len
        invariant left - Least(r4, left) == wanted - Least(len, wanted) && |Out()| + left <= WINDOW + mem.Length
        invariant Out() + Repeat(b, Least(r4, left)) == all
      {
        assert Repeat(b, Least(r4, left)) == [b] + Repeat(b, Least(r4, left) - 1);
        assert Out() + Repeat(b, Least(r4, left)) == (Out() + [b]) + Repeat(b, Least(r4, left) - 1);
        Emit(b, m);
        left := left - 1;
        r4 := r4 - 1;
      }
    }

    /** At the end the memory holds what was wanted. */
    method Close(ghost m: seq<Byte>, ghost start: nat, ghost n: nat)
      requires Between(m, start, n, 0) && start + Footprint(n, vram) <= mem.Length && (vram ==> start % 2 == 0)
      modifies mem
      ensures Unpacks(below + m, below + mem[..], old(Out()), n, vram)
    {
      Finish(m);
    }

    // ------------------------------------------------------------------ the two loops

    /** Between two blocks: `wanted` of the `n` bytes from `start` on are still to come. */
    ghost predicate Between(m: seq<Byte>, start: nat, n: nat, wanted: nat): (ok: bool)
      reads this, mem
      ensures ok ==> dst <= mem.Length && WINDOW + start <= |Out()|
    {
      && Valid() && Behind(m) && start <= dst && below + m[..start] <= Out() && |Out()| + wanted == WINDOW + start + n
      && start + n <= mem.Length
    }

    /** One block: a literal or a reference, behind a new flag byte when the last is used up. */
    method LzBlock(from: nat, wanted: nat, flags: nat, bits: nat, ghost m: seq<Byte>, ghost start: nat, ghost n: nat)
      returns (r0: nat, r2: nat, r3: nat, r4: nat)
      requires Between(m, start, n, wanted) && wanted > 0
      requires var end := Lz(m, from, flags, bits, Out(), wanted).next;
               end <= mem.Length && (end <= start || start + n <= from)
      modifies this`dst, this`pending, this`hasPending, mem
      ensures Between(m, start, n, r2) && r2 < wanted && from < r0
      ensures Lz(m, r0, r3, r4, Out(), r2) == old(Lz(m, from, flags, bits, Out(), wanted))
    {
      hide Lz, CopyRun, At, BackOffset, BackLength;
      ghost var buf := Out();
      r0, r3, r4 := from, flags, bits;
      if r4 == 0 {
        LzLoads(m, r0, r3, buf, wanted);
        r3 := ReadSource(r0, m, start);
        r0 := r0 + 1;
        r4 := 8;
      }
      LzUnfold(m, r0, r3, r4, buf, wanted);
      r4 := r4 - 1;
      var reference := r3 / 128 % 2 == 1;
      r3 := 2 * r3;
      var r5 := ReadSource(r0, m, start);
      r0 := r0 + 1;
      if reference {
        var r6 := ReadSource(r0, m, start);
        r0 := r0 + 1;
        r2 := CopyBack(BackOffset(r5, r6), BackLength(r5), wanted, m);
        CopyKeeps(buf, BackOffset(r5, r6), Least(BackLength(r5), wanted), below + m[..start]);
      } else {
        Emit(r5, m);
        r2 := wanted - 1;
      }
    }

    /** One flag byte with the literals or the run behind it. */
    method RlBlock(from: nat, wanted: nat, ghost m: seq<Byte>, ghost start: nat, ghost n: nat)
      returns (r0: nat, r2: nat)
      requires Between(m, start, n, wanted) && wanted > 0
      requires var end := Rl(m, from, Out(), wanted).next;
               end <= mem.Length && (end <= start || start + n <= from)
      modifies this`dst, this`pending, this`hasPending, mem
      ensures Between(m, start, n, r2) && r2 < wanted && from < r0
      ensures Rl(m, r0, Out(), r2) == old(Rl(m, from, Out(), wanted))
    {
      hide Rl, Slice, Repeat, At;
      ghost var buf := Out();
      RlUnfold(m, from, buf, wanted);
      var r3 := ReadSource(from, m, start);
      r0 := from + 1;
      if r3 < 128 {
        r0, r2 := CopyLiterals(r0, r3 + 1, wanted, m, start, Rl(m, from, buf, wanted).next);
      } else {
        var r5 := ReadSource(r0, m, start);
        r0 := r0 + 1;
        r2 := Fill(r5, r3 - 128 + 3, wanted, m);
      }
    }
  }

  lemma CopyStep(buf: seq<Byte>, off: nat, k: nat)
    requires 1 <= off <= |buf| && k > 0
    ensures CopyRun(buf, off, k) == CopyRun(buf + [buf[|buf| - off]], off, k - 1)
  {
  }

  lemma SliceNone(m: seq<Byte>, buf: seq<Byte>, p: nat)
    ensures buf + Slice(m, p, 0) == buf
  {
  }

  lemma SliceStep(m: seq<Byte>, buf: seq<Byte>, p: nat, k: nat)
    requires k > 0
    ensures buf + Slice(m, p, k) == (buf + [At(m, p)]) + Slice(m, p + 1, k - 1)
  {
  }

  /** The header word, less its low byte. */
  method ReadLength(mem: array<Byte>, src: nat) returns (n: nat)
    requires src + 4 <= mem.Length
    ensures n == Declared(mem[..], src)
  {
    var low: nat, middle: nat, high: nat := mem[src + 1], mem[src + 2], mem[src + 3];
    n := low + 256 * middle + 0x1_0000 * high;
  }

  /** Swi 0x11 and 0x12.  A reference may reach below the memory. */
  method Lz77UnComp(mem: array<Byte>, below: Below, src: nat, dst: nat, vram: bool)
    requires Placed(mem.Length, src, dst, vram)
    requires Apart(mem.Length, src, Lz77(below, mem[..], src, dst).next, dst, Footprint(Declared(mem[..], src), vram))
    modifies mem
    ensures Lz77Leaves(below, old(mem[..]), mem[..], src, dst, vram)
  {
    hide Unpacker.Between, Unpacker.Out, Unpacker.Valid, Lz, Rl, Declared, Unpacks;
    ghost var m := mem[..];
    ghost var total := Lz77(below, m, src, dst);
    var n := ReadLength(mem, src);
    var u := new Unpacker(mem, below, dst, vram, n);
    var r0, r2, r3, r4 := src + 4, n, 0, 0;
    while r2 != 0
      invariant u.mem == mem && u.below == below && u.vram == vram && u.Between(m, dst, n, r2) && src < r0
      invariant Lz(m, r0, r3, r4, u.Out(), r2) == total
      decreases r2
    {
      r0, r2, r3, r4 := u.LzBlock(r0, r2, r3, r4, m, dst, n);
    }
    LzNone(m, r0, r3, r4, u.Out());
    u.Close(m, dst, n);
  }

  /** Swi 0x14 and 0x15. */
  method RlUnComp(mem: array<Byte>, below: Below, src: nat, dst: nat, vram: bool)
    requires Placed(mem.Length, src, dst, vram)
    requires Apart(mem.Length, src, RunLength(below, mem[..], src, dst).next, dst,
                   Footprint(Declared(mem[..], src), vram))
    modifies mem
    ensures RlLeaves(below, old(mem[..]), mem[..], src, dst, vram)
  {
    hide Unpacker.Between, Unpacker.Out, Unpacker.Valid, Lz, Rl, Declared, Unpacks;
    ghost var m := mem[..];
    ghost var total := RunLength(below, m, src, dst);
    var n := ReadLength(mem, src);
    var u := new Unpacker(mem, below, dst, vram, n);
    var r0, r2 := src + 4, n;
    while r2 != 0
      invariant u.mem == mem && u.below == below && u.vram == vram && u.Between(m, dst, n, r2) && src < r0
      invariant Rl(m, r0, u.Out(), r2) == total
      decreases r2
    {
      r0, r2 := u.RlBlock(r0, r2, m, dst, n);
    }
    RlNone(m, r0, u.Out());
    u.Close(m, dst, n);
  }

  lemma {:induction false} CopyKeeps(buf: seq<Byte>, off: nat, k: nat, prefix: seq<Byte>)
    requires 1 <= off <= |buf| && prefix <= buf
    ensures prefix <= CopyRun(buf, off, k)
    decreases k
  {
    if k > 0 { CopyKeeps(buf + [buf[|buf| - off]], off, k - 1, prefix); }
  }

  // ------------------------------------------------------------------ what the results are

  /** Video memory ends up with the same bytes as RAM, one zero more for an odd length. */
  lemma VideoMatchesRam(before: seq<Byte>, ram: seq<Byte>, video: seq<Byte>, result: seq<Byte>, n: nat)
    requires |result| + n % 2 <= |before|
    requires Unpacks(before, ram, result, n, false) && Unpacks(before, video, result, n, true)
    ensures video == if n % 2 == 0 then ram else ram[|result| := 0]
  {
    assert Repeat(0, 0) == [];
    if n % 2 == 1 {
      assert Repeat(0, 1) == [0];
      assert before[|result|..] == [before[|result|]] + before[|result| + 1..];
    }
  }

  lemma {:induction false} LzKeeps(m: seq<Byte>, p: nat, flags: nat, bits: nat, buf: seq<Byte>, n: nat,
                                   prefix: seq<Byte>)
    requires WINDOW <= |buf| && prefix <= buf
    ensures prefix <= Lz(m, p, flags, bits, buf, n).out
    decreases n, bits == 0
  {
    hide Lz, CopyRun;
    if n == 0 {
      LzNone(m, p, flags, bits, buf);
    } else if bits == 0 {
      LzLoads(m, p, flags, buf, n);
      LzKeeps(m, p + 1, At(m, p), 8, buf, n, prefix);
    } else {
      LzUnfold(m, p, flags, bits, buf, n);
      if flags / 128 % 2 == 0 {
        LzKeeps(m, p + 1, 2 * flags, bits - 1, buf + [At(m, p)], n - 1, prefix);
      } else {
        var b0, b1 := At(m, p), At(m, p + 1);
        var take := Least(BackLength(b0), n);
        CopyKeeps(buf, BackOffset(b0, b1), take, prefix);
        LzKeeps(m, p + 2, 2 * flags, bits - 1, CopyRun(buf, BackOffset(b0, b1), take), n - take, prefix);
      }
    }
  }

  lemma {:induction false} RlKeeps(m: seq<Byte>, p: nat, buf: seq<Byte>, n: nat, prefix: seq<Byte>)
    requires prefix <= buf
    ensures prefix <= Rl(m, p, buf, n).out
    decreases n
  {
    hide Rl, Slice, Repeat;
    if n == 0 {
      RlNone(m, p, buf);
    } else {
      RlUnfold(m, p, buf, n);
      var flag := At(m, p);
      if flag < 128 {
        var take := Least(flag + 1, n);
        RlKeeps(m, p + 1 + take, buf + Slice(m, p + 1, take), n - take, prefix);
      } else {
        var take := Least(flag - 128 + 3, n);
        RlKeeps(m, p + 2, buf + Repeat(At(m, p + 1), take), n - take, prefix);
      }
    }
  }

  /** A stream packed from tokens comes back as what the tokens stand for, in front of
      an unchanged beginning of memory, and the routine reads no further than its end. */
  lemma Lz77RoundTrip(below: Below, m: seq<Byte>, src: nat, dst: nat, ts: seq<LzToken>)
    requires dst <= |m| && LzValid(ts)
    requires Declared(m, src) == Sizes(ts) && Holds(m, src + 4, PackLz(ts))
    ensures Lz77(below, m, src, dst) == Unpacked(Expand(ts, below + m[..dst]), src + 4 + |PackLz(ts)|)
    ensures below + m[..dst] <= Lz77(below, m, src, dst).out
  {
    hide *;
    Lz77Is(below, m, src, dst);
    LzUnpacks(m, src + 4, ts, below + m[..dst], 0);
    LzKeeps(m, src + 4, 0, 0, below + m[..dst], Declared(m, src), below + m[..dst]);
  }

  lemma Lz77Is(below: Below, m: seq<Byte>, src: nat, dst: nat)
    requires dst <= |m|
    ensures Lz77(below, m, src, dst) == Lz(m, src + 4, 0, 0, below + m[..dst], Declared(m, src))
  {
  }

  lemma RunLengthRoundTrip(below: Below, m: seq<Byte>, src: nat, dst: nat, ts: seq<RunToken>)
    requires dst <= |m| && RunsValid(ts)
    requires Declared(m, src) == |PlainRuns(ts)| && Holds(m, src + 4, PackRuns(ts))
    ensures RunLength(below, m, src, dst) == Unpacked(below + m[..dst] + PlainRuns(ts), src + 4 + |PackRuns(ts)|)
  {
    RlUnpacks(m, src + 4, ts, below + m[..dst]);
  }

  // ------------------------------------------------------------------ from the bytes in memory

  /** `xs` stands in memory at `p`, and all of it fits. */
  predicate Stands(m: seq<Byte>, p: nat, xs: seq<Byte>) { p + |xs| <= |m| && m[p..p + |xs|] == xs }

  /** The four header bytes: the type, and the length with its low byte first. */
  function Header(kind: Byte, n: nat): seq<Byte>
    requires n < 0x100_0000
  {
    [kind, n % 0x100, n / 0x100 % 0x100, n / 0x1_0000]
  }

  /** Memory with `plain` at `dst`, a zero behind an odd length in video memory, and the rest
      as it was. */
  predicate Written(m: seq<Byte>, after: seq<Byte>, dst: nat, plain: seq<Byte>, vram: bool) {
    var fill: seq<Byte> := if vram && |plain| % 2 == 1 then [0] else [];
    dst + |plain| + |fill| <= |m| && after == m[..dst] + plain + fill + m[dst + |plain| + |fill|..]
  }

  lemma StandsHolds(m: seq<Byte>, p: nat, xs: seq<Byte>)
    requires Stands(m, p, xs)
    ensures Holds(m, p, xs)
  {
    SliceIs(m, p, |xs|);
  }

  lemma HeaderDeclares(m: seq<Byte>, src: nat, kind: Byte, n: nat)
    requires n < 0x100_0000 && Stands(m, src, Header(kind, n))
    ensures Declared(m, src) == n
  {
    assert m[src + 1] == m[src..src + 4][1] && m[src + 2] == m[src..src + 4][2] && m[src + 3] == m[src..src + 4][3];
    DivTwice(n, 0x100, 0x100);
    Quotient(n, 0x100);
    Quotient(n / 0x100, 0x100);
  }

  lemma PlainWritten(below: Below, m: seq<Byte>, after: seq<Byte>, dst: nat, out: seq<Byte>, n: nat, vram: bool)
    requires dst + Footprint(n, vram) <= |m| && below + m[..dst] <= out && |out| == WINDOW + dst + n
    requires Unpacks(below + m, below + after, out, n, vram)
    ensures Written(m, after, dst, out[WINDOW + dst..], vram)
  {
    var plain := out[WINDOW + dst..];
    var fill: seq<Byte> := if vram && n % 2 == 1 then [0] else [];
    assert Repeat(0, Footprint(n, vram) - n) == fill;
    assert out == below + m[..dst] + plain;
    var end := dst + n + |fill|;
    assert (below + m)[WINDOW + end..] == m[end..];
    assert below + after == below + (m[..dst] + plain + fill + m[end..]);
    assert after == (below + after)[WINDOW..];
  }

  /** With a header that declares any length, and behind it a packed stream for at least that
      many bytes, exactly that many of the bytes the tokens stand for are written. */
  lemma Lz77Restores(below: Below, m: seq<Byte>, after: seq<Byte>, src: nat, dst: nat, vram: bool,
                     kind: Byte, n: nat, ts: seq<LzToken>)
    requires dst <= |m| && n < 0x100_0000 && LzValid(ts) && n <= Sizes(ts)
    requires Stands(m, src, Header(kind, n)) && Stands(m, src + 4, PackLz(ts))
    requires Lz77Leaves(below, m, after, src, dst, vram)
    ensures Written(m, after, dst, Expand(ts, below + m[..dst])[WINDOW + dst..][..n], vram)
  {
    var buf := below + m[..dst];
    var out := Lz77(below, m, src, dst).out;
    HeaderDeclares(m, src, kind, n);
    assert out == Expand(ts, buf)[..|buf| + n] && buf <= out by { Lz77Stream(m, src, buf, n, ts); }
    assert out[WINDOW + dst..] == Expand(ts, buf)[WINDOW + dst..][..n];
    hide Expand, Sizes, PackLz, Lz, LzValid;
    PlainWritten(below, m, after, dst, out, n, vram);
  }

  lemma Lz77Stream(m: seq<Byte>, src: nat, buf: seq<Byte>, n: nat, ts: seq<LzToken>)
    requires WINDOW <= |buf| && LzValid(ts) && n <= Sizes(ts) && Stands(m, src + 4, PackLz(ts))
    ensures Lz(m, src + 4, 0, 0, buf, n).out == Expand(ts, buf)[..|buf| + n]
    ensures buf <= Lz(m, src + 4, 0, 0, buf, n).out && Lz(m, src + 4, 0, 0, buf, n).next <= src + 4 + |PackLz(ts)|
  {
    StandsHolds(m, src + 4, PackLz(ts));
    LzUnpacks(m, src + 4, ts, buf, 0);
    LzPrefix(m, src + 4, 0, 0, buf, n, Sizes(ts));
    hide Lz, Expand, Sizes, PackLz;
  }

  /** What `Lz77UnComp` asks for, from the same bytes: the stream and the output lie apart. */
  lemma Lz77Ready(below: Below, m: seq<Byte>, src: nat, dst: nat, vram: bool, kind: Byte, n: nat, ts: seq<LzToken>)
    requires dst <= |m| && n < 0x100_0000 && LzValid(ts) && n <= Sizes(ts)
    requires Stands(m, src, Header(kind, n)) && Stands(m, src + 4, PackLz(ts))
    requires Apart(|m|, src, src + 4 + |PackLz(ts)|, dst, if vram then n + n % 2 else n)
    ensures Apart(|m|, src, Lz77(below, m, src, dst).next, dst, Footprint(Declared(m, src), vram))
  {
    hide Lz, Expand, Sizes, PackLz, Declared, LzValid, Stands;
    HeaderDeclares(m, src, kind, n);
    Lz77Stream(m, src, below + m[..dst], n, ts);
    Lz77Is(below, m, src, dst);
    hide Lz77;
  }

  lemma RlRestores(below: Below, m: seq<Byte>, after: seq<Byte>, src: nat, dst: nat, vram: bool,
                   kind: Byte, n: nat, ts: seq<RunToken>)
    requires dst <= |m| && n < 0x100_0000 && RunsValid(ts) && n <= |PlainRuns(ts)|
    requires Stands(m, src, Header(kind, n)) && Stands(m, src + 4, PackRuns(ts))
    requires RlLeaves(below, m, after, src, dst, vram)
    ensures Written(m, after, dst, PlainRuns(ts)[..n], vram)
  {
    var buf := below + m[..dst];
    var out := RunLength(below, m, src, dst).out;
    HeaderDeclares(m, src, kind, n);
    assert out == buf + PlainRuns(ts)[..n] by { RlStream(m, src, buf, n, ts); }
    assert out[WINDOW + dst..] == PlainRuns(ts)[..n];
    hide PlainRuns, PackRuns, Rl, RunsValid;
    PlainWritten(below, m, after, dst, out, n, vram);
  }

  lemma RlStream(m: seq<Byte>, src: nat, buf: seq<Byte>, n: nat, ts: seq<RunToken>)
    requires RunsValid(ts) && n <= |PlainRuns(ts)| && Stands(m, src + 4, PackRuns(ts))
    ensures Rl(m, src + 4, buf, n).out == buf + PlainRuns(ts)[..n]
    ensures Rl(m, src + 4, buf, n).next <= src + 4 + |PackRuns(ts)|
  {
    StandsHolds(m, src + 4, PackRuns(ts));
    RlUnpacks(m, src + 4, ts, buf);
    RlPrefix(m, src + 4, buf, n, |PlainRuns(ts)|);
    hide Rl, PlainRuns, PackRuns;
    var all := buf + PlainRuns(ts);
    assert all[..|buf| + n] == buf + PlainRuns(ts)[..n];
  }

  lemma RlReady(below: Below, m: seq<Byte>, src: nat, dst: nat, vram: bool, kind: Byte, n: nat, ts: seq<RunToken>)
    requires dst <= |m| && n < 0x100_0000 && RunsValid(ts) && n <= |PlainRuns(ts)|
    requires Stands(m, src, Header(kind, n)) && Stands(m, src + 4, PackRuns(ts))
    requires Apart(|m|, src, src + 4 + |PackRuns(ts)|, dst, if vram then n + n % 2 else n)
    ensures Apart(|m|, src, RunLength(below, m, src, dst).next, dst, Footprint(Declared(m, src), vram))
  {
    hide Rl, PlainRuns, PackRuns, Declared, RunsValid, Stands;
    HeaderDeclares(m, src, kind, n);
    RlStream(m, src, below + m[..dst], n, ts);
  }
}
