/// A direct-sound FIFO fed by one DMA channel plays its source memory exactly.
module SoundStream {
  import opened Arithmetic
  import opened Timers
  import opened SoundFifo
  import opened Audio

  datatype Side = A | B {
    function Addr(): nat { if A? then 0x0400_00A0 else 0x0400_00A4 }

    function Timer<M>(c: Config<M>): nat { if A? then c.timerA else c.timerB }

    function Fifo<M>(s: Apu<M>): Queue { if A? then s.fifoA else s.fifoB }

    function Latch<M>(s: Apu<M>): int { if A? then s.latchA else s.latchB }
  }

  /** Channel `k`, and no other, is a special-timing channel aimed at this FIFO. */
  predicate Feeding<M>(s: Apu<M>, side: Side, k: nat) {
    && 1 <= k <= 2
    && Aimed(s.dma[k], side)
    && !Aimed(s.dma[3 - k], side)
  }

  predicate Aimed(ch: DmaChannel, side: Side) {
    ch.enabled && ch.timing == Special && ch.dst == side.Addr()
  }

  /** Byte `i` of the source that starts at `src`. */
  function SourceByte(mem: nat -> Byte, src: nat, i: nat): int {
    Signed(mem(Wrap(src / 2 * 2 + i)))
  }

  function SourceBytes(mem: nat -> Byte, src: nat, from: nat, n: nat): seq<int> {
    seq(n, i requires 0 <= i => SourceByte(mem, src, from + i))
  }

  /** The FIFO `pops` pops after it stood empty with the channel at `src`: it
      holds the next bytes of the source, the channel stands just behind them,
      and it holds enough for the next pop. */
  predicate Streaming<M>(c: Config<M>, s: Apu<M>, side: Side, k: nat, src: nat, pops: nat) {
    Feeding(s, side, k) && Holds(c.mem, src, pops, side.Fifo(s), s.dma[k].src)
  }

  predicate Holds(mem: nat -> Byte, src: nat, pops: nat, q: Queue, pointer: nat) {
    if pops == 0 then q == [] && pointer == src
    else
      && 16 <= |q|
      && q == SourceBytes(mem, src, pops - 1, |q|)
      && (pops - 1 + |q|) % 16 == 0
      && pointer == Wrap(src + (pops - 1 + |q|))
  }

  /** The byte the latch must show after pop number `pops`, counted from one. */
  function Played(mem: nat -> Byte, src: nat, pops: nat): int
    requires pops > 0
  {
    if pops == 1 then 0 else SourceByte(mem, src, pops - 2)
  }

  // ----------------------------------------------------------------- one overflow

  /** What an overflow does to one side, told without the other. */
  lemma ServeOneSide<M>(c: Config<M>, s: Apu<M>, side: Side, k: nat, timer: nat)
    requires Feeding(s, side, k)
    ensures var r := Serve(c, s, timer);
            var q := Rest(side.Fifo(s));
            && Feeding(r, side, k)
            && (timer != side.Timer(c) ==>
                  side.Fifo(r) == side.Fifo(s) && side.Latch(r) == side.Latch(s) && r.dma[k] == s.dma[k])
            && (timer == side.Timer(c) ==>
                  && side.Latch(r) == Front(side.Fifo(s))
                  && side.Fifo(r) == (if NeedsData(q) then PushAll(q, Burst(c.mem, s.dma[k].src)) else q)
                  && r.dma[k] == if NeedsData(q) then Advanced(s.dma[k]) else s.dma[k])
  {
    hide PushAll, Burst, Front, Rest, Refill;
    var p := Pop(c, s, timer);
    assert Feeding(p, side, k);
    if NeedsData(p.fifoA) || NeedsData(p.fifoB) {
      if k == 1 {
        RefillOwn(c, p, side, 1, timer);
        RefillOther(c, Refill(c, p, 1, timer), side, 1, timer);
      } else {
        RefillOther(c, p, side, 2, timer);
        RefillOwn(c, Refill(c, p, 1, timer), side, 2, timer);
      }
    }
  }

  /** The same in full: the latch takes the front byte or, from an empty FIFO, silence; a FIFO
      left with at most sixteen bytes gets the sixteen that the channel points at, all of which
      fit, and the channel moves on. */
  lemma OverflowMeans<M>(c: Config<M>, s: Apu<M>, side: Side, k: nat)
    requires Feeding(s, side, k)
    ensures var r, q := Serve(c, s, side.Timer(c)), side.Fifo(s);
            var left, ch := if q == [] then [] else q[1..], s.dma[k];
            && side.Latch(r) == (if q == [] then 0 else q[0])
            && side.Fifo(r) == (if |left| <= 16 then left + SourceBytes(c.mem, ch.src, 0, 16) else left)
            && r.dma[k] == if |left| <= 16 then ch.(src := (ch.src + 16) % 0x1_0000_0000) else ch
  {
    ServeOneSide(c, s, side, k, side.Timer(c));
    var q := Rest(side.Fifo(s));
    PushAllKeepsPrefix(q, Burst(c.mem, s.dma[k].src));
    assert Burst(c.mem, s.dma[k].src) == SourceBytes(c.mem, s.dma[k].src, 0, 16);
    hide Serve, PushAll, Burst, SourceBytes;
  }

  lemma RefillOwn<M>(c: Config<M>, s: Apu<M>, side: Side, k: nat, timer: nat)
    requires Feeding(s, side, k)
    ensures var r := Refill(c, s, k, timer);
            var fills := timer == side.Timer(c) && NeedsData(side.Fifo(s));
            && Feeding(r, side, k) && side.Latch(r) == side.Latch(s)
            && side.Fifo(r) == (if fills then PushAll(side.Fifo(s), Burst(c.mem, s.dma[k].src)) else side.Fifo(s))
            && r.dma[k] == if fills then Advanced(s.dma[k]) else s.dma[k]
  {
    hide PushAll, Burst;
  }

  lemma RefillOther<M>(c: Config<M>, s: Apu<M>, side: Side, k: nat, timer: nat)
    requires Feeding(s, side, k)
    ensures var r := Refill(c, s, 3 - k, timer);
            && Feeding(r, side, k) && side.Latch(r) == side.Latch(s)
            && side.Fifo(r) == side.Fifo(s) && r.dma[k] == s.dma[k]
  {
    hide PushAll, Burst;
  }

  /** The burst fetched at the channel's pointer continues the source. */
  lemma BurstContinues(mem: nat -> Byte, src: nat, at: nat)
    requires at % 16 == 0
    ensures Burst(mem, Wrap(src + at)) == SourceBytes(mem, src, at, 16)
  {
    var here := Wrap(src + at);
    forall j | 0 <= j < 16
      ensures Burst(mem, here)[j] == SourceByte(mem, src, at + j)
    {
      hide Wrap, Signed;
      EvenBase(src, at, j);
    }
  }

  lemma EvenBase(src: nat, at: nat, j: nat)
    requires at % 2 == 0
    ensures Wrap(Wrap(src + at) / 2 * 2 + j) == Wrap(src / 2 * 2 + (at + j))
  {
    var w := (src + at) / U32_LIMIT;
    assert (src + at) % U32_LIMIT == src + at - w * U32_LIMIT;
    assert (src + at) % U32_LIMIT / 2 * 2 == src / 2 * 2 + at - w * U32_LIMIT;
  }

  /** Each pop plays the next source byte; refills drop nothing and the queue
      never runs dry again. */
  lemma PopStreams<M>(c: Config<M>, s: Apu<M>, side: Side, k: nat, src: nat, pops: nat)
    requires src < U32_LIMIT && Streaming(c, s, side, k, src, pops)
    ensures var r := Serve(c, s, side.Timer(c));
            && Streaming(c, r, side, k, src, pops + 1)
            && side.Latch(r) == Played(c.mem, src, pops + 1)
  {
    ServeOneSide(c, s, side, k, side.Timer(c));
    QueueStreams(c.mem, src, pops, side.Fifo(s), s.dma[k].src);
    hide Serve, Holds, Played;
  }

  lemma QueueStreams(mem: nat -> Byte, src: nat, pops: nat, q: Queue, pointer: nat)
    requires src < U32_LIMIT && Holds(mem, src, pops, q, pointer)
    ensures Front(q) == Played(mem, src, pops + 1)
    ensures var q1 := Rest(q);
            if NeedsData(q1) then
              Holds(mem, src, pops + 1, PushAll(q1, Burst(mem, pointer)), Wrap(pointer + 16))
            else Holds(mem, src, pops + 1, q1, pointer)
  {
    hide SourceByte, Burst, PushAll, Wrap;
    var q1 := Rest(q);
    var at := pops + |q1|;
    RestStreams(mem, src, pops, q);
    if NeedsData(q1) {
      Wraps(src, at);
      BurstContinues(mem, src, at);
      PushAllKeepsPrefix(q1, SourceBytes(mem, src, at, 16));
      SourceSplits(mem, src, pops, |q1|);
    }
  }

  lemma RestStreams(mem: nat -> Byte, src: nat, pops: nat, q: Queue)
    requires if pops == 0 then q == [] else 16 <= |q| && q == SourceBytes(mem, src, pops - 1, |q|)
    ensures Rest(q) == SourceBytes(mem, src, pops, |Rest(q)|)
    ensures Front(q) == Played(mem, src, pops + 1)
  {
    hide SourceByte;
  }

  lemma SourceSplits(mem: nat -> Byte, src: nat, from: nat, n: nat)
    ensures SourceBytes(mem, src, from, n) + SourceBytes(mem, src, from + n, 16) == SourceBytes(mem, src, from, n + 16)
  {
    hide SourceByte;
  }

  lemma Wraps(src: nat, at: nat)
    ensures Wrap(Wrap(src + at) + 16) == Wrap(src + (at + 16))
  {
  }

  lemma OtherPopStreams<M>(c: Config<M>, s: Apu<M>, side: Side, k: nat, src: nat, pops: nat, timer: nat)
    requires Streaming(c, s, side, k, src, pops) && timer != side.Timer(c)
    ensures var r := Serve(c, s, timer);
            Streaming(c, r, side, k, src, pops) && side.Latch(r) == side.Latch(s)
  {
    ServeOneSide(c, s, side, k, timer);
  }

  // --------------------------------------------------------------------- whole runs

  /** The latch after each pop of one side during a run of events. */
  function LatchTrace<M>(c: Config<M>, s: Apu<M>, base: nat, n: nat, evs: seq<Event>, side: Side): seq<int>
    decreases evs
  {
    if evs == [] then []
    else
      var s := Serve(c, TickUntil(c, s, base + Clamp(evs[0].at, n)), evs[0].timer);
      (if evs[0].timer == side.Timer(c) then [side.Latch(s)] else []) + LatchTrace(c, s, base, n, evs[1..], side)
  }

  lemma SamplingStreams<M>(c: Config<M>, s: Apu<M>, side: Side, k: nat, src: nat, pops: nat, target: nat)
    ensures var r := TickUntil(c, s, target);
            && (Streaming(c, s, side, k, src, pops) ==> Streaming(c, r, side, k, src, pops))
            && side.Latch(r) == side.Latch(s)
  {
    hide SourceBytes;
    EmitKeeps(c, s, WindowsClosed(s.clock, target), target);
  }

  /** What the latch shows from pop number `pops + 1` on. */
  function PlayedFrom(mem: nat -> Byte, src: nat, pops: nat, n: nat): seq<int> {
    seq(n, i requires 0 <= i => Played(mem, src, pops + i + 1))
  }

  lemma PlayedCons(mem: nat -> Byte, src: nat, pops: nat, n: nat)
    ensures [Played(mem, src, pops + 1)] + PlayedFrom(mem, src, pops + 1, n) == PlayedFrom(mem, src, pops, n + 1)
  {
  }

  /** Over any run of overflow events the latch of a FIFO that started empty
      shows 0 and then the source bytes in order. */
  lemma {:induction false} RunStreams<M>(c: Config<M>, s: Apu<M>, base: nat, n: nat, evs: seq<Event>,
                                         side: Side, k: nat, src: nat, pops: nat)
    requires src < U32_LIMIT && Streaming(c, s, side, k, src, pops)
    ensures var trace := LatchTrace(c, s, base, n, evs, side);
            && Streaming(c, Run(c, s, base, n, evs), side, k, src, pops + |trace|)
            && trace == PlayedFrom(c.mem, src, pops, |trace|)
    decreases evs
  {
    hide Streaming, Serve, TickUntil, Played, PlayedFrom, Clamp;
    if evs == [] {
      assert PlayedFrom(c.mem, src, pops, 0) == [] by { NothingPlayed(c.mem, src, pops); }
    } else {
      var t := base + Clamp(evs[0].at, n);
      var s1 := TickUntil(c, s, t);
      SamplingStreams(c, s, side, k, src, pops, t);
      var s2 := Serve(c, s1, evs[0].timer);
      if evs[0].timer == side.Timer(c) {
        PopStreams(c, s1, side, k, src, pops);
        RunStreams(c, s2, base, n, evs[1..], side, k, src, pops + 1);
        PlayedCons(c.mem, src, pops, |LatchTrace(c, s2, base, n, evs[1..], side)|);
      } else {
        OtherPopStreams(c, s1, side, k, src, pops, evs[0].timer);
        RunStreams(c, s2, base, n, evs[1..], side, k, src, pops);
      }
    }
  }

  lemma NothingPlayed(mem: nat -> Byte, src: nat, pops: nat)
    ensures PlayedFrom(mem, src, pops, 0) == []
  {
  }

  lemma {:induction false} TraceLength<M>(c: Config<M>, s: Apu<M>, base: nat, n: nat, evs: seq<Event>, side: Side)
    ensures |LatchTrace(c, s, base, n, evs, side)| == |Of(evs, side.Timer(c))|
    decreases evs
  {
    if evs != [] {
      hide Serve, TickUntil, Clamp;
      TraceLength(c, Serve(c, TickUntil(c, s, base + Clamp(evs[0].at, n)), evs[0].timer), base, n, evs[1..], side);
    }
  }

  lemma OverflowsDelivered(ts: seq<TimerState>, cycles: nat, timer: nat)
    requires |ts| == 4 && AllValid(ts) && timer <= 1
    ensures |Of(Events(ts, cycles), timer)| == After(ts, cycles, timer).ov.count
  {
    hide After;
    MergeComplete(Stamps(After(ts, cycles, 0).ov, ts[0].Period()), Stamps(After(ts, cycles, 1).ov, ts[1].Period()));
  }

  /** One batch: as many source bytes are played as the clocking timer overflows. */
  lemma BatchStreams<M>(c: Config<M>, s: Apu<M>, ts: seq<TimerState>, cycles: nat, side: Side, k: nat, src: nat,
                        pops: nat)
    requires c.Valid() && |ts| == 4 && AllValid(ts)
    requires src < U32_LIMIT && Streaming(c, s, side, k, src, pops)
    ensures var n := After(ts, cycles, side.Timer(c)).ov.count;
            && Streaming(c, Batch(c, s, ts, cycles), side, k, src, pops + n)
            && LatchTrace(c, s, s.clock, cycles, Events(ts, cycles), side) == PlayedFrom(c.mem, src, pops, n)
            && (n > 0 ==> side.Latch(Batch(c, s, ts, cycles)) == Played(c.mem, src, pops + n))
  {
    hide After, Streaming, Played, Events, Serve, TickUntil, Run, LatchTrace, AllValid;
    var evs := Events(ts, cycles);
    OverflowsDelivered(ts, cycles, side.Timer(c));
    TraceLength(c, s, s.clock, cycles, evs, side);
    RunStreams(c, s, s.clock, cycles, evs, side, k, src, pops);
    LastLatch(c, s, s.clock, cycles, evs, side);
    SamplingStreams(c, Run(c, s, s.clock, cycles, evs), side, k, src,
                    pops + After(ts, cycles, side.Timer(c)).ov.count, s.clock + cycles);
  }

  lemma {:induction false} LastLatch<M>(c: Config<M>, s: Apu<M>, base: nat, n: nat, evs: seq<Event>, side: Side)
    ensures var trace := LatchTrace(c, s, base, n, evs, side);
            side.Latch(Run(c, s, base, n, evs)) == if trace == [] then side.Latch(s) else trace[|trace| - 1]
    decreases evs
  {
    if evs != [] {
      hide PushAll, Burst;
      var t := base + Clamp(evs[0].at, n);
      SamplingStreams(c, s, side, 0, 0, 0, t);
      LastLatch(c, Serve(c, TickUntil(c, s, t), evs[0].timer), base, n, evs[1..], side);
    }
  }
}
