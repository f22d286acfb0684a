/// What the compressed formats mean, and that unpacking a packed stream gives
/// back what was packed (GBATEK, "BIOS Decompression Functions").
module Unpack {
  import opened Arithmetic

  function At(m: seq<Byte>, a: nat): Byte { if a < |m| then m[a] else 0 }

  function Least(x: nat, y: nat): (r: nat)
    ensures r <= x && r <= y
  {
    if x < y then x else y
  }

  /** Decompressed length: the upper three bytes of the header word. */
  function Declared(m: seq<Byte>, header: nat): nat {
    At(m, header + 1) + 256 * At(m, header + 2) + 0x1_0000 * At(m, header + 3)
  }

  /** The output so far, with what precedes it in memory, and the source position. */
  datatype Unpacked = Unpacked(out: seq<Byte>, next: nat)

  // ------------------------------------------------------------------------ LZ77

  /** `k` bytes, each the one `off` back from the end, which grows as they are added. */
  function CopyRun(buf: seq<Byte>, off: nat, k: nat): (r: seq<Byte>)
    requires 1 <= off <= |buf|
    ensures |r| == |buf| + k
    decreases k
  {
    if k == 0 then buf else CopyRun(buf + [buf[|buf| - off]], off, k - 1)
  }

  function BackOffset(b0: Byte, b1: Byte): (off: nat)
    ensures 1 <= off <= WINDOW
  {
    b0 % 16 * 256 + b1 + 1
  }

  function BackLength(b0: Byte): (k: nat)
    ensures 3 <= k <= 18
  {
    b0 / 16 + 3
  }

  const WINDOW := 4096

  /** Unpack `n` more bytes from position `p`; `bits` flags are left in `flags`,
      the next one in bit 7. */
  function Lz(m: seq<Byte>, p: nat, flags: nat, bits: nat, buf: seq<Byte>, n: nat): (r: Unpacked)
    requires WINDOW <= |buf|
    ensures |r.out| == |buf| + n && p <= r.next && (n > 0 && bits == 0 ==> p < r.next)
    decreases n, bits == 0
  {
    if n == 0 then Unpacked(buf, p)
    else if bits == 0 then Lz(m, p + 1, At(m, p), 8, buf, n)
    else if flags / 128 % 2 == 0 then Lz(m, p + 1, 2 * flags, bits - 1, buf + [At(m, p)], n - 1)
    else
      var take := Least(BackLength(At(m, p)), n);
      var copied := CopyRun(buf, BackOffset(At(m, p), At(m, p + 1)), take);
      Lz(m, p + 2, 2 * flags, bits - 1, copied, n - take)
  }

  // ------------------------------------------------------------------ run lengths

  function Repeat(b: Byte, k: nat): seq<Byte> { seq(k, _ => b) }

  function Slice(m: seq<Byte>, p: nat, k: nat): seq<Byte>
    decreases k
  {
    if k == 0 then [] else [At(m, p)] + Slice(m, p + 1, k - 1)
  }

  function Rl(m: seq<Byte>, p: nat, buf: seq<Byte>, n: nat): (r: Unpacked)
    ensures |r.out| == |buf| + n && p <= r.next
    decreases n
  {
    if n == 0 then Unpacked(buf, p)
    else
      var flag := At(m, p);
      if flag < 128 then
        var take := Least(flag + 1, n);
        SliceLength(m, p + 1, take);
        Rl(m, p + 1 + take, buf + Slice(m, p + 1, take), n - take)
      else
        var take := Least(flag - 128 + 3, n);
        Rl(m, p + 2, buf + Repeat(At(m, p + 1), take), n - take)
  }

  // ------------------------------------------------- packed streams and what they hold

  datatype RunToken = Raw(bytes: seq<Byte>) | Run(b: Byte, k: nat) {
    predicate Valid() { if Raw? then 1 <= |bytes| <= 128 else 3 <= k <= 130 }

    function Packed(): seq<Byte>
      requires Valid()
    {
      match this
      case Raw(bytes) => [|bytes| - 1] + bytes
      case Run(b, k) => [128 + k - 3, b]
    }

    function Plain(): seq<Byte> { match this case Raw(bytes) => bytes case Run(b, k) => Repeat(b, k) }
  }

  predicate RunsValid(ts: seq<RunToken>) { forall i :: 0 <= i < |ts| ==> ts[i].Valid() }

  function PackRuns(ts: seq<RunToken>): seq<Byte>
    requires RunsValid(ts)
  {
    if ts == [] then [] else ts[0].Packed() + PackRuns(ts[1..])
  }

  function PlainRuns(ts: seq<RunToken>): seq<Byte> {
    if ts == [] then [] else ts[0].Plain() + PlainRuns(ts[1..])
  }

  /** `xs` stands in memory at `p`. */
  predicate Holds(m: seq<Byte>, p: nat, xs: seq<Byte>) { Slice(m, p, |xs|) == xs }

  lemma {:induction false} SliceLength(m: seq<Byte>, p: nat, k: nat)
    ensures |Slice(m, p, k)| == k
    decreases k
  {
    if k > 0 { SliceLength(m, p + 1, k - 1); }
  }

  lemma {:induction false} SliceSplit(m: seq<Byte>, p: nat, j: nat, k: nat)
    ensures Slice(m, p, j + k) == Slice(m, p, j) + Slice(m, p + j, k)
    decreases j
  {
    if j > 0 { SliceSplit(m, p + 1, j - 1, k); }
  }

  lemma {:induction false} SliceIs(m: seq<Byte>, p: nat, k: nat)
    requires p + k <= |m|
    ensures Slice(m, p, k) == m[p..p + k]
    decreases k
  {
    if k > 0 {
      SliceIs(m, p + 1, k - 1);
      assert m[p..p + k] == [m[p]] + m[p + 1..p + 1 + (k - 1)];
    }
  }

  lemma HoldsParts(m: seq<Byte>, p: nat, xs: seq<Byte>, ys: seq<Byte>)
    requires Holds(m, p, xs + ys)
    ensures Holds(m, p, xs) && Holds(m, p + |xs|, ys)
  {
    SliceSplit(m, p, |xs|, |ys|);
    SliceLength(m, p, |xs|);
    var all := Slice(m, p, |xs| + |ys|);
    hide Slice;
    assert xs == all[..|xs|] && ys == all[|xs|..];
  }

  lemma HoldsOne(m: seq<Byte>, p: nat, b: Byte)
    requires Holds(m, p, [b])
    ensures At(m, p) == b
  {
    assert Slice(m, p, 1)[0] == At(m, p);
  }

  lemma HoldsTwo(m: seq<Byte>, p: nat, b0: Byte, b1: Byte)
    requires Holds(m, p, [b0, b1])
    ensures At(m, p) == b0 && At(m, p + 1) == b1
  {
    assert [b0, b1] == [b0] + [b1];
    HoldsParts(m, p, [b0], [b1]);
    HoldsOne(m, p, b0);
    HoldsOne(m, p + 1, b1);
  }

  /** Unpacking packed runs gives the runs back and stops behind them. */
  lemma {:induction false} RlUnpacks(m: seq<Byte>, p: nat, ts: seq<RunToken>, buf: seq<Byte>)
    requires RunsValid(ts) && Holds(m, p, PackRuns(ts))
    ensures Rl(m, p, buf, |PlainRuns(ts)|) == Unpacked(buf + PlainRuns(ts), p + |PackRuns(ts)|)
    decreases |ts|
  {
    hide *;
    if ts == [] {
      RunsNil(m, p, ts, buf);
    } else {
      var t, rest := ts[0], ts[1..];
      RunsCons(ts);
      var plain := t.Plain();
      HoldsParts(m, p, t.Packed(), PackRuns(rest));
      RlUnpacks(m, p + |t.Packed()|, rest, buf + plain);
      RlToken(m, p, t, buf, |PlainRuns(ts)|);
      Joined(buf, plain, PlainRuns(rest));
    }
  }

  lemma RunsNil(m: seq<Byte>, p: nat, ts: seq<RunToken>, buf: seq<Byte>)
    requires ts == []
    ensures Rl(m, p, buf, |PlainRuns(ts)|) == Unpacked(buf + PlainRuns(ts), p + |PackRuns(ts)|)
  {
    assert buf + [] == buf;
  }

  lemma RunsCons(ts: seq<RunToken>)
    requires RunsValid(ts) && ts != []
    ensures ts[0].Valid() && RunsValid(ts[1..])
    ensures PackRuns(ts) == ts[0].Packed() + PackRuns(ts[1..]) && PlainRuns(ts) == ts[0].Plain() + PlainRuns(ts[1..])
  {
  }

  lemma RlToken(m: seq<Byte>, p: nat, t: RunToken, buf: seq<Byte>, n: nat)
    requires t.Valid() && n >= |t.Plain()| && Holds(m, p, t.Packed())
    ensures Rl(m, p, buf, n) == Rl(m, p + |t.Packed()|, buf + t.Plain(), n - |t.Plain()|)
  {
    hide Rl;
    match t
    case Raw(bytes) =>
      var head: Byte := |bytes| - 1;
      HoldsParts(m, p, [head], bytes);
      HoldsOne(m, p, head);
      RlRaw(m, p, buf, n);
    case Run(b, k) =>
      HoldsTwo(m, p, 128 + k - 3, b);
      RlRun(m, p, buf, n);
  }

  lemma RlRaw(m: seq<Byte>, p: nat, buf: seq<Byte>, n: nat)
    requires At(m, p) < 128 && At(m, p) + 1 <= n
    ensures var take := At(m, p) + 1;
            Rl(m, p, buf, n) == Rl(m, p + 1 + take, buf + Slice(m, p + 1, take), n - take)
  {
    SliceLength(m, p + 1, At(m, p) + 1);
  }

  lemma RlRun(m: seq<Byte>, p: nat, buf: seq<Byte>, n: nat)
    requires At(m, p) >= 128 && At(m, p) - 128 + 3 <= n
    ensures var take := At(m, p) - 128 + 3;
            Rl(m, p, buf, n) == Rl(m, p + 2, buf + Repeat(At(m, p + 1), take), n - take)
  {
  }

  datatype LzToken = Literal(b: Byte) | Back(off: nat, k: nat) {
    /** What fits the twelve-bit offset and four-bit length fields. */
    predicate Valid() { Back? ==> 1 <= off <= WINDOW && 3 <= k <= 18 }

    function Size(): nat { if Literal? then 1 else k }

    function Packed(): seq<Byte>
      requires Valid()
    {
      match this
      case Literal(b) => [b]
      case Back(off, k) => [(k - 3) * 16 + (off - 1) / 256, (off - 1) % 256]
    }
  }

  predicate LzValid(ts: seq<LzToken>) { forall i :: 0 <= i < |ts| ==> ts[i].Valid() }

  function After(t: LzToken, buf: seq<Byte>): (r: seq<Byte>)
    requires t.Valid() && WINDOW <= |buf|
    ensures |r| == |buf| + t.Size()
  {
    if t.Literal? then buf + [t.b] else CopyRun(buf, t.off, t.k)
  }

  /** The bytes the tokens stand for, after what precedes them. */
  function Expand(ts: seq<LzToken>, buf: seq<Byte>): (r: seq<Byte>)
    requires LzValid(ts) && WINDOW <= |buf|
    ensures |r| == |buf| + Sizes(ts)
    decreases |ts|
  {
    if ts == [] then buf else Expand(ts[1..], After(ts[0], buf))
  }

  function Sizes(ts: seq<LzToken>): nat { if ts == [] then 0 else ts[0].Size() + Sizes(ts[1..]) }

  /** The flags of the tokens, the first in bit `top`. */
  function Flags(ts: seq<LzToken>, top: nat): (f: nat)
    requires |ts| <= top + 1
    ensures f < Pow2(top + 1)
    decreases |ts|
  {
    if ts == [] then 0
    else (if ts[0].Back? then Pow2(top) else 0) + if ts[1..] == [] then 0 else Flags(ts[1..], top - 1)
  }

  function FlagByte(ts: seq<LzToken>): Byte
    requires |ts| <= 8
  {
    assert Pow2(8) == 256;
    Flags(ts, 7)
  }

  function PackGroup(ts: seq<LzToken>): seq<Byte>
    requires LzValid(ts)
  {
    if ts == [] then [] else (assert ts[0].Valid(); ts[0].Packed() + PackGroup(ts[1..]))
  }

  function GroupSize(ts: seq<LzToken>): (g: nat)
    ensures g <= |ts|
  {
    if |ts| < 8 then |ts| else 8
  }

  /** Groups of eight tokens, each behind its flag byte. */
  function PackLz(ts: seq<LzToken>): seq<Byte>
    requires LzValid(ts)
    decreases |ts|
  {
    if ts == [] then []
    else
      var g := GroupSize(ts);
      [FlagByte(ts[..g])] + PackGroup(ts[..g]) + PackLz(ts[g..])
  }

  lemma {:induction false} FlagsShift(ts: seq<LzToken>, top: nat)
    requires |ts| <= top + 1
    ensures Flags(ts, top + 1) == 2 * Flags(ts, top)
    decreases |ts|
  {
    if |ts| > 1 { FlagsShift(ts[1..], top - 1); }
  }

  /** Shifting the flag byte left brings up the flags of the remaining tokens. */
  lemma FlagByteShifts(ts: seq<LzToken>, flags: nat)
    requires 1 <= |ts| <= 8 && flags % 256 == FlagByte(ts)
    ensures flags / 128 % 2 == (if ts[0].Back? then 1 else 0)
    ensures 2 * flags % 256 == FlagByte(ts[1..])
  {
    assert Pow2(7) == 128;
    if |ts| > 1 { FlagsShift(ts[1..], 6); }
    var low := if |ts| > 1 then Flags(ts[1..], 6) else 0;
    assert low < 128;
    ByteShifts(flags, ts[0].Back?, low);
  }

  lemma ByteShifts(flags: nat, top: bool, low: nat)
    requires flags % 256 == (if top then 128 else 0) + low && low < 128
    ensures flags / 128 % 2 == (if top then 1 else 0) && 2 * flags % 256 == 2 * low
  {
    var t: int := if top then 1 else 0;
    Quotient(flags, 256);
    QuotientIs(flags, 128, 2 * (flags / 256) + t, low);
    QuotientIs(2 * flags, 256, 2 * (flags / 256) + t, 2 * low);
  }

  function Shifted(flags: nat, k: nat): nat
    decreases k
  {
    if k == 0 then flags else Shifted(2 * flags, k - 1)
  }

  /** Within a group: one unpacking step per token. */
  lemma {:induction false} LzUnpacksGroup(m: seq<Byte>, p: nat, flags: nat, bits: nat, ts: seq<LzToken>,
                                          buf: seq<Byte>, n: nat)
    requires LzValid(ts) && |ts| <= bits <= 8 && WINDOW <= |buf| && Sizes(ts) <= n
    requires flags % 256 == FlagByte(ts) && Holds(m, p, PackGroup(ts))
    ensures Lz(m, p, flags, bits, buf, n) ==
            Lz(m, p + |PackGroup(ts)|, Shifted(flags, |ts|), bits - |ts|, Expand(ts, buf), n - Sizes(ts))
    decreases |ts|
  {
    hide *;
    if ts != [] {
      var t, rest := ts[0], ts[1..];
      GroupCons(ts, buf, flags);
      FlagByteShifts(ts, flags);
      HoldsParts(m, p, t.Packed(), PackGroup(rest));
      LzOne(m, p, flags, bits, t, buf, n);
      LzUnpacksGroup(m, p + |t.Packed()|, 2 * flags, bits - 1, rest, After(t, buf), n - t.Size());
      assert p + |t.Packed()| + |PackGroup(rest)| == p + |PackGroup(ts)|;
      assert n - t.Size() - Sizes(rest) == n - Sizes(ts) && bits - 1 - |rest| == bits - |ts|;
    } else {
      GroupNil(flags, buf);
    }
  }

  lemma GroupNil(flags: nat, buf: seq<Byte>)
    requires WINDOW <= |buf|
    ensures PackGroup([]) == [] && Sizes([]) == 0 && Expand([], buf) == buf && Shifted(flags, 0) == flags
  {
  }

  lemma GroupCons(ts: seq<LzToken>, buf: seq<Byte>, flags: nat)
    requires LzValid(ts) && ts != [] && WINDOW <= |buf|
    ensures ts[0].Valid() && LzValid(ts[1..])
    ensures PackGroup(ts) == ts[0].Packed() + PackGroup(ts[1..]) && Sizes(ts) == ts[0].Size() + Sizes(ts[1..])
    ensures Expand(ts, buf) == Expand(ts[1..], After(ts[0], buf))
    ensures Shifted(flags, |ts|) == Shifted(2 * flags, |ts[1..]|)
  {
    FirstValid(ts);
    hide LzValid, LzToken.Valid, LzToken.Packed, LzToken.Size, After;
  }

  lemma FirstValid(ts: seq<LzToken>)
    requires LzValid(ts) && ts != []
    ensures ts[0].Valid() && LzValid(ts[1..])
  {
  }

  lemma LzOne(m: seq<Byte>, p: nat, flags: nat, bits: nat, t: LzToken, buf: seq<Byte>, n: nat)
    requires t.Valid() && WINDOW <= |buf| && n >= t.Size() && bits > 0
    requires flags / 128 % 2 == (if t.Back? then 1 else 0) && Holds(m, p, t.Packed())
    ensures Lz(m, p, flags, bits, buf, n) ==
            Lz(m, p + |t.Packed()|, 2 * flags, bits - 1, After(t, buf), n - t.Size())
  {
    match t
    case Literal(b) =>
      HoldsOne(m, p, b);
    case Back(off, k) =>
      HoldsTwo(m, p, (k - 3) * 16 + (off - 1) / 256, (off - 1) % 256);
      assert BackLength(At(m, p)) == k && BackOffset(At(m, p), At(m, p + 1)) == off;
      hide BackLength, BackOffset, CopyRun, Holds, At;
  }

  lemma {:induction false} ExpandSplit(xs: seq<LzToken>, ys: seq<LzToken>, buf: seq<Byte>)
    requires LzValid(xs) && LzValid(ys) && LzValid(xs + ys) && WINDOW <= |buf|
    ensures Expand(xs + ys, buf) == Expand(ys, Expand(xs, buf)) && Sizes(xs + ys) == Sizes(xs) + Sizes(ys)
    decreases |xs|
  {
    if xs == [] {
      assert xs + ys == ys;
    } else {
      assert (xs + ys)[1..] == xs[1..] + ys && (xs + ys)[0] == xs[0];
      assert xs[0].Valid();
      ExpandSplit(xs[1..], ys, After(xs[0], buf));
    }
  }

  /** Unpacking packed tokens gives what the tokens stand for. */
  lemma {:induction false} LzUnpacks(m: seq<Byte>, p: nat, ts: seq<LzToken>, buf: seq<Byte>, flags: nat)
    requires LzValid(ts) && WINDOW <= |buf| && Holds(m, p, PackLz(ts))
    ensures Lz(m, p, flags, 0, buf, Sizes(ts)) == Unpacked(Expand(ts, buf), p + |PackLz(ts)|)
    decreases |ts|, 0
  {
    hide *;
    if ts == [] {
      LzNothing(m, p, ts, buf, flags, 0);
    } else {
      var g := GroupSize(ts);
      var head, tail := ts[..g], ts[g..];
      PackCons(ts, g);
      LzFlag(m, p, flags, buf, Sizes(ts), ts);
      LzHead(m, p, head, tail, buf, PackLz(ts));
      assert head + tail == ts;
    }
  }

  /** A group and all that follows it. */
  lemma {:induction false} LzHead(m: seq<Byte>, p: nat, head: seq<LzToken>, tail: seq<LzToken>, buf: seq<Byte>,
                                  packed: seq<Byte>)
    requires 1 <= |head| <= 8 && (tail != [] ==> |head| == 8)
    requires LzValid(head) && LzValid(tail) && LzValid(head + tail) && WINDOW <= |buf|
    requires packed == [FlagByte(head)] + (PackGroup(head) + PackLz(tail)) && Holds(m, p, packed)
    ensures Lz(m, p + 1, At(m, p), 8, buf, Sizes(head + tail)) == Unpacked(Expand(head + tail, buf), p + |packed|)
    decreases |tail|, 2
  {
    hide *;
    var f: Byte, group := FlagByte(head), PackGroup(head);
    ExpandSplit(head, tail, buf);
    HoldsParts(m, p, [f], group + PackLz(tail));
    HoldsOne(m, p, f);
    HoldsParts(m, p + 1, group, PackLz(tail));
    LzUnpacksGroup(m, p + 1, f, 8, head, buf, Sizes(head + tail));
    LzRest(m, p + 1 + |group|, tail, Expand(head, buf), Shifted(f, |head|), 8 - |head|);
    assert p + 1 + |group| + |PackLz(tail)| == p + |packed|;
  }

  lemma PackCons(ts: seq<LzToken>, g: nat)
    requires LzValid(ts) && ts != [] && g == GroupSize(ts)
    ensures ts == ts[..g] + ts[g..] && 1 <= g <= 8 && (ts[g..] != [] ==> g == 8)
    ensures LzValid(ts[..g]) && LzValid(ts[g..])
    ensures PackLz(ts) == [FlagByte(ts[..g])] + (PackGroup(ts[..g]) + PackLz(ts[g..]))
  {
    Joined([FlagByte(ts[..g])], PackGroup(ts[..g]), PackLz(ts[g..]));
    hide FlagByte, PackGroup;
  }

  lemma LzNothing(m: seq<Byte>, p: nat, ts: seq<LzToken>, buf: seq<Byte>, flags: nat, bits: nat)
    requires ts == [] && WINDOW <= |buf|
    ensures Lz(m, p, flags, bits, buf, Sizes(ts)) == Unpacked(Expand(ts, buf), p + |PackLz(ts)|)
  {
  }

  /** After a whole group the next flag byte is due; after a short one nothing is left. */
  lemma {:induction false} LzRest(m: seq<Byte>, p: nat, tail: seq<LzToken>, buf: seq<Byte>, flags: nat, bits: nat)
    requires LzValid(tail) && WINDOW <= |buf| && Holds(m, p, PackLz(tail)) && (tail != [] ==> bits == 0)
    ensures Lz(m, p, flags, bits, buf, Sizes(tail)) == Unpacked(Expand(tail, buf), p + |PackLz(tail)|)
    decreases |tail|, 1
  {
    if tail == [] {
      LzNothing(m, p, tail, buf, flags, bits);
    } else {
      LzUnpacks(m, p, tail, buf, flags);
    }
  }

  lemma LzFlag(m: seq<Byte>, p: nat, flags: nat, buf: seq<Byte>, n: nat, ts: seq<LzToken>)
    requires LzValid(ts) && ts != [] && n == Sizes(ts) && WINDOW <= |buf|
    ensures Lz(m, p, flags, 0, buf, n) == Lz(m, p + 1, At(m, p), 8, buf, n)
  {
    assert ts[0].Valid();
    hide At;
  }

  // ------------------------------------------------------------------ shorter lengths, single bytes

  /** A run copied from `off` back: what was there stays, and each new byte is the one `off`
      before it. */
  lemma {:induction false} CopyRunRepeats(buf: seq<Byte>, off: nat, k: nat)
    requires 1 <= off <= |buf|
    ensures buf <= CopyRun(buf, off, k)
    ensures forall j :: |buf| <= j < |buf| + k ==> CopyRun(buf, off, k)[j] == CopyRun(buf, off, k)[j - off]
    decreases k
  {
    if k > 0 {
      var more := buf + [buf[|buf| - off]];
      CopyRunRepeats(more, off, k - 1);
      var r := CopyRun(more, off, k - 1);
      assert r[|buf|] == more[|buf|] && r[|buf| - off] == more[|buf| - off];
    }
  }

  lemma {:induction false} CopyRunPrefix(buf: seq<Byte>, off: nat, j: nat, k: nat)
    requires 1 <= off <= |buf| && j <= k
    ensures CopyRun(buf, off, j) <= CopyRun(buf, off, k)
    decreases j
  {
    if j > 0 {
      CopyRunPrefix(buf + [buf[|buf| - off]], off, j - 1, k - 1);
    } else {
      CopyRunRepeats(buf, off, k);
    }
  }

  lemma CopyNone(buf: seq<Byte>, off: nat)
    requires 1 <= off <= |buf|
    ensures CopyRun(buf, off, 0) == buf
  {
  }

  lemma LzNone(m: seq<Byte>, p: nat, flags: nat, bits: nat, buf: seq<Byte>)
    requires WINDOW <= |buf|
    ensures Lz(m, p, flags, bits, buf, 0) == Unpacked(buf, p)
  {
  }

  lemma LzLoads(m: seq<Byte>, p: nat, flags: nat, buf: seq<Byte>, n: nat)
    requires WINDOW <= |buf| && n > 0
    ensures Lz(m, p, flags, 0, buf, n) == Lz(m, p + 1, At(m, p), 8, buf, n)
    ensures p < Lz(m, p, flags, 0, buf, n).next
  {
  }

  lemma LzUnfold(m: seq<Byte>, p: nat, flags: nat, bits: nat, buf: seq<Byte>, n: nat)
    requires WINDOW <= |buf| && n > 0 && bits > 0
    ensures p < Lz(m, p, flags, bits, buf, n).next
    ensures flags / 128 % 2 == 0 ==>
              Lz(m, p, flags, bits, buf, n) == Lz(m, p + 1, 2 * flags, bits - 1, buf + [At(m, p)], n - 1)
    ensures flags / 128 % 2 == 1 ==>
              var b0, b1 := At(m, p), At(m, p + 1);
              var take := Least(BackLength(b0), n);
              && p + 1 < Lz(m, p, flags, bits, buf, n).next
              && Lz(m, p, flags, bits, buf, n)
                 == Lz(m, p + 2, 2 * flags, bits - 1, CopyRun(buf, BackOffset(b0, b1), take), n - take)
  {
    hide CopyRun;
  }

  lemma RlNone(m: seq<Byte>, p: nat, buf: seq<Byte>)
    ensures Rl(m, p, buf, 0) == Unpacked(buf, p)
  {
  }

  lemma RlUnfold(m: seq<Byte>, p: nat, buf: seq<Byte>, n: nat)
    requires n > 0
    ensures At(m, p) < 128 ==>
              var take := Least(At(m, p) + 1, n);
              && p + 1 + take <= Rl(m, p, buf, n).next && |Slice(m, p + 1, take)| == take
              && Rl(m, p, buf, n) == Rl(m, p + 1 + take, buf + Slice(m, p + 1, take), n - take)
    ensures At(m, p) >= 128 ==>
              var take := Least(At(m, p) - 128 + 3, n);
              && p + 2 <= Rl(m, p, buf, n).next && |Repeat(At(m, p + 1), take)| == take
              && Rl(m, p, buf, n) == Rl(m, p + 2, buf + Repeat(At(m, p + 1), take), n - take)
  {
    if At(m, p) < 128 { SliceLength(m, p + 1, Least(At(m, p) + 1, n)); }
  }

  /** Unpacking fewer bytes gives the beginning of unpacking more. */
  lemma {:induction false} LzPrefix(m: seq<Byte>, p: nat, flags: nat, bits: nat, buf: seq<Byte>, n: nat, more: nat)
    requires WINDOW <= |buf| && n <= more
    ensures buf <= Lz(m, p, flags, bits, buf, n).out <= Lz(m, p, flags, bits, buf, more).out
    ensures Lz(m, p, flags, bits, buf, n).next <= Lz(m, p, flags, bits, buf, more).next
    decreases more, bits == 0
  {
    hide Lz, CopyRun, BackLength, BackOffset, At;
    if more == 0 {
      LzNone(m, p, flags, bits, buf);
    } else {
      if n == 0 { LzNone(m, p, flags, bits, buf); }
      if bits == 0 {
        LzLoads(m, p, flags, buf, more);
        if n > 0 { LzLoads(m, p, flags, buf, n); }
        LzPrefix(m, p + 1, At(m, p), 8, buf, n, more);
        if n == 0 { LzNone(m, p + 1, At(m, p), 8, buf); }
      } else if flags / 128 % 2 == 0 {
        LzUnfold(m, p, flags, bits, buf, more);
        if n > 0 { LzUnfold(m, p, flags, bits, buf, n); }
        LzPrefix(m, p + 1, 2 * flags, bits - 1, buf + [At(m, p)], if n > 0 then n - 1 else 0, more - 1);
      } else {
        LzUnfold(m, p, flags, bits, buf, more);
        if n > 0 { LzUnfold(m, p, flags, bits, buf, n); }
        var length, off := BackLength(At(m, p)), BackOffset(At(m, p), At(m, p + 1));
        var some, all := Least(length, n), Least(length, more);
        CopyRunPrefix(buf, off, some, all);
        CopyRunPrefix(buf, off, 0, some);
        CopyNone(buf, off);
        var copied := CopyRun(buf, off, all);
        LzPrefix(m, p + 2, 2 * flags, bits - 1, copied, if n > some then n - some else 0, more - all);
        if some == n { LzNone(m, p + 2, 2 * flags, bits - 1, CopyRun(buf, off, some)); }
      }
    }
  }

  lemma {:induction false} RlPrefix(m: seq<Byte>, p: nat, buf: seq<Byte>, n: nat, more: nat)
    requires n <= more
    ensures buf <= Rl(m, p, buf, n).out <= Rl(m, p, buf, more).out
    ensures Rl(m, p, buf, n).next <= Rl(m, p, buf, more).next
    decreases more
  {
    hide Rl, Slice, At, Repeat;
    RlNone(m, p, buf);
    if more > 0 {
      RlUnfold(m, p, buf, more);
      if n > 0 { RlUnfold(m, p, buf, n); }
      if At(m, p) < 128 {
        var some, all := Least(At(m, p) + 1, n), Least(At(m, p) + 1, more);
        SliceLength(m, p + 1, all);
        SliceLength(m, p + 1, some);
        SliceSplit(m, p + 1, some, all - some);
        RlPrefix(m, p + 1 + all, buf + Slice(m, p + 1, all), if n > some then n - some else 0, more - all);
        if some == n { RlNone(m, p + 1 + some, buf + Slice(m, p + 1, some)); }
        assert buf + Slice(m, p + 1, some) <= buf + Slice(m, p + 1, all);
      } else {
        var some, all := Least(At(m, p) - 128 + 3, n), Least(At(m, p) - 128 + 3, more);
        RepeatPrefix(At(m, p + 1), some, all);
        RlPrefix(m, p + 2, buf + Repeat(At(m, p + 1), all), if n > some then n - some else 0, more - all);
        if some == n { RlNone(m, p + 2, buf + Repeat(At(m, p + 1), some)); }
        assert buf + Repeat(At(m, p + 1), some) <= buf + Repeat(At(m, p + 1), all);
      }
    }
  }

  lemma RepeatPrefix(b: Byte, j: nat, k: nat)
    requires j <= k
    ensures Repeat(b, j) <= Repeat(b, k) && |Repeat(b, j)| == j && |Repeat(b, k)| == k
  {
  }

  /** One LZ77 block from the bytes in memory: eight blocks behind each flag byte, the first
      by its highest bit; a clear bit puts one byte out, a set bit a run whose length, less
      three, is the high half of the first byte and whose distance, less one, is the rest. */
  lemma LzBlockMeans(m: seq<Byte>, p: nat, flags: nat, bits: nat, buf: seq<Byte>, n: nat)
    requires WINDOW <= |buf| && n > 0 && p + 1 < |m| && bits <= 8
    ensures bits == 0 ==> Lz(m, p, flags, bits, buf, n) == Lz(m, p + 1, m[p], 8, buf, n)
    ensures bits > 0 && flags / 0x80 % 2 == 0 ==>
              Lz(m, p, flags, bits, buf, n) == Lz(m, p + 1, 2 * flags, bits - 1, buf + [m[p]], n - 1)
    ensures bits > 0 && flags / 0x80 % 2 == 1 ==>
              var b0: int, b1: int := m[p], m[p + 1];
              var length, back := b0 / 0x10 + 3, b0 % 0x10 * 0x100 + b1 + 1;
              var r, k := Lz(m, p, flags, bits, buf, n), if length < n then length else n;
              && r == Lz(m, p + 2, 2 * flags, bits - 1, r.out[..|buf| + k], n - k)
              && buf <= r.out
              && forall j {:trigger r.out[j]} :: |buf| <= j < |buf| + k ==> r.out[j] == r.out[j - back]
  {
    hide Lz, CopyRun;
    if bits == 0 {
      LzLoads(m, p, flags, buf, n);
    } else {
      LzUnfold(m, p, flags, bits, buf, n);
      if flags / 0x80 % 2 == 1 {
        var length, back := BackLength(m[p]), BackOffset(m[p], m[p + 1]);
        var k := Least(length, n);
        var copied := CopyRun(buf, back, k);
        CopyRunRepeats(buf, back, k);
        LzPrefix(m, p + 2, 2 * flags, bits - 1, copied, n - k, n - k);
        var out := Lz(m, p, flags, bits, buf, n).out;
        assert out[..|buf| + k] == copied;
        forall j {:trigger out[j]} | |buf| <= j < |buf| + k ensures out[j] == out[j - back] {
          assert out[j] == copied[j] && out[j - back] == copied[j - back];
        }
      }
    }
  }

  /** One run-length block: below 128 the flag is followed by one more byte than it says,
      from 128 on by the byte to repeat. */
  lemma RlBlockMeans(m: seq<Byte>, p: nat, buf: seq<Byte>, n: nat)
    requires n > 0 && p + 1 < |m|
    ensures m[p] < 0x80 ==>
              var k: nat := if (m[p] as int) < n then m[p] as int + 1 else n;
              p + 1 + k <= |m| ==> Rl(m, p, buf, n) == Rl(m, p + 1 + k, buf + m[p + 1..p + 1 + k], n - k)
    ensures m[p] >= 0x80 ==>
              var k: nat := if (m[p] as int) - 0x7D < n then m[p] as int - 0x7D else n;
              Rl(m, p, buf, n) == Rl(m, p + 2, buf + seq(k, _ => m[p + 1]), n - k)
  {
    hide Rl, Slice;
    RlUnfold(m, p, buf, n);
    var k := Least((m[p] as int) + 1, n);
    if m[p] < 0x80 && p + 1 + k <= |m| { SliceIs(m, p + 1, k); }
    if m[p] >= 0x80 {
      var k := Least((m[p] as int) - 0x80 + 3, n);
      assert Repeat(m[p + 1], k) == seq(k, _ => m[p + 1]);
    }
  }
}
